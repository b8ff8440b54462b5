/**
 * The classes of the tagged cache: a driver with its random ids, the set of tags that reads
 * and resets them, and the store that writes every key under their namespace.
 */
module TaggedStore {
  import opened Options
  import opened Tags
  import CacheStore

  // ------------------------------------------------------------------ what a set of tags shows

  predicate AllSet(inner: Inner, names: seq<Name>) {
    forall i :: 0 <= i < |names| ==> IdAt(inner, names[i]).Some?
  }

  function Ids(inner: Inner, names: seq<Name>): (ids: seq<string>)
    requires AllSet(inner, names)
    ensures Current(inner, names, ids)
  {
    seq(|names|, i requires 0 <= i < |names| => IdAt(inner, names[i]).value)
  }

  /** What reading `key` through these tags answers; a set with a missing tag shows nothing. */
  function Shown(hash: string -> string, inner: Inner, names: seq<Name>, now: nat, key: string): Option<Value> {
    if AllSet(inner, names) then CacheStore.Get(inner, now, ItemKey(hash, Ids(inner, names), key)) else None
  }

  /** Every entry stands under ids that were drawn. */
  ghost predicate ItemInv(hash: string -> string, inner: Inner, owner: map<string, Name>) {
    forall ids, k {:trigger ItemKey(hash, ids, k)} ::
      AllHex(ids) && ItemKey(hash, ids, k) in inner ==> forall i :: 0 <= i < |ids| ==> ids[i] in owner
  }

  /** No tag that holds no id yet is named twice. */
  ghost predicate MissingOnce(inner: Inner, names: seq<Name>) {
    forall i, j :: 0 <= i < j < |names| && names[i] == names[j] ==> IdAt(inner, names[i]).Some?
  }

  ghost predicate AllOwned(owner: map<string, Name>, ids: seq<string>, names: seq<Name>) {
    |ids| == |names| && forall i :: 0 <= i < |ids| ==> Owned(owner, ids[i], names[i])
  }

  /** A namespace with an id never drawn before has no entries. */
  lemma FreshShowsNothing(hash: string -> string, inner: Inner, owner: map<string, Name>, ids: seq<string>, i: nat,
                          k: string)
    requires ItemInv(hash, inner, owner) && AllHex(ids) && i < |ids| && ids[i] !in owner
    ensures ItemKey(hash, ids, k) !in inner
  {}

  lemma TagsKeepItems(hash: string -> string, inner: Inner, owner: map<string, Name>, name: Name, id: string)
    requires Hashes(hash) && ItemInv(hash, inner, owner)
    ensures ItemInv(hash, Stored(inner, name, id), owner[id := name])
  {
    forall ids, k | AllHex(ids) && ItemKey(hash, ids, k) in Stored(inner, name, id)
      ensures forall i :: 0 <= i < |ids| ==> ids[i] in owner[id := name]
    {
      ItemKeyIsNoTagKey(hash, ids, k, name);
    }
  }

  lemma WritesKeepItems(hash: string -> string, inner: Inner, owner: map<string, Name>, ids: seq<string>, key: string,
                        e: Entry)
    requires Hashes(hash) && ItemInv(hash, inner, owner) && AllHex(ids)
    requires forall i :: 0 <= i < |ids| ==> ids[i] in owner
    ensures ItemInv(hash, inner[ItemKey(hash, ids, key) := e], owner)
  {
    forall xs, k | AllHex(xs) && ItemKey(hash, xs, k) in inner[ItemKey(hash, ids, key) := e]
      ensures forall i :: 0 <= i < |xs| ==> xs[i] in owner
    {
      ItemKeysAreInjective(hash, xs, ids, k, key);
    }
  }

  // ------------------------------------------------------------------ what a change of tags leaves alone

  ghost predicate SameAt(a: Inner, b: Inner, at: string) {
    (at in a <==> at in b) && (at in a ==> a[at] == b[at])
  }

  /** No entry changed, and of the tags only some of `names`. */
  ghost predicate OnlyTags(hash: string -> string, a: Inner, b: Inner, names: seq<Name>) {
    && (forall n {:trigger TagKey(n)} :: n !in names ==> SameAt(a, b, TagKey(n)))
    && (forall ids, k {:trigger ItemKey(hash, ids, k)} :: SameAt(a, b, ItemKey(hash, ids, k)))
  }

  /** Every tag that was set still holds the same id. */
  ghost predicate KeepsSet(a: Inner, b: Inner) {
    forall n {:trigger IdAt(a, n)} {:trigger IdAt(b, n)} :: IdAt(a, n).Some? ==> IdAt(b, n) == IdAt(a, n)
  }

  lemma StoredIsOnlyTags(hash: string -> string, a: Inner, b: Inner, names: seq<Name>, name: Name, id: string)
    requires Hashes(hash) && OnlyTags(hash, a, b, names) && name in names
    ensures OnlyTags(hash, a, Stored(b, name, id), names)
  {
    forall n | n !in names ensures SameAt(a, Stored(b, name, id), TagKey(n)) {
      TagKeysAreInjective(n, name);
    }
    forall ids, k ensures SameAt(a, Stored(b, name, id), ItemKey(hash, ids, k)) {
      ItemKeyIsNoTagKey(hash, ids, k, name);
    }
  }

  lemma OtherTagsShowTheSame(hash: string -> string, a: Inner, b: Inner, names: seq<Name>, others: seq<Name>,
                             now: nat, k: string)
    requires OnlyTags(hash, a, b, names) && forall n :: n in names ==> n !in others
    ensures Shown(hash, a, others, now, k) == Shown(hash, b, others, now, k)
  {
    forall n | n in others ensures IdAt(a, n) == IdAt(b, n) {
      assert SameAt(a, b, TagKey(n));
    }
    assert AllSet(a, others) ==> Ids(a, others) == Ids(b, others);
  }

  lemma SetTagsShowTheSame(hash: string -> string, a: Inner, b: Inner, names: seq<Name>, others: seq<Name>, now: nat,
                           k: string)
    requires OnlyTags(hash, a, b, names) && KeepsSet(a, b) && AllSet(a, others)
    ensures Shown(hash, a, others, now, k) == Shown(hash, b, others, now, k)
  {
    forall i | 0 <= i < |others| ensures IdAt(b, others[i]) == IdAt(a, others[i]) && IdAt(a, others[i]).Some? {}
    assert Ids(a, others) == Ids(b, others);
  }

  lemma CurrentIds(inner: Inner, names: seq<Name>, ids: seq<string>)
    requires Current(inner, names, ids)
    ensures AllSet(inner, names) && Ids(inner, names) == ids
  {}

  lemma CurrentIsHex(inner: Inner, owner: map<string, Name>, names: seq<Name>, ids: seq<string>)
    requires TagInv(inner, owner) && Current(inner, names, ids)
    ensures AllHex(ids) && forall i :: 0 <= i < |ids| ==> Owned(owner, ids[i], names[i])
  {
    forall i | 0 <= i < |ids| ensures Owned(owner, ids[i], names[i]) {
      assert IdAt(inner, names[i]) == Some(ids[i]);
    }
  }

  /** Ids drawn for these tags are read through no other tags. */
  lemma SameIdsSameTags(inner: Inner, owner: map<string, Name>, names: seq<Name>, ids: seq<string>, others: seq<Name>)
    requires TagInv(inner, owner) && AllOwned(owner, ids, names) && AllSet(inner, others) && Ids(inner, others) == ids
    ensures others == names && Current(inner, names, ids)
  {
    CurrentIsHex(inner, owner, others, ids);
    forall i | 0 <= i < |names| ensures names[i] == others[i] {
      assert Owned(owner, ids[i], names[i]) && Owned(owner, ids[i], others[i]);
    }
  }

  /** A write under some ids shows through the tags that hold them now, and nowhere else. */
  lemma WriteShows(hash: string -> string, inner: Inner, owner: map<string, Name>, ids: seq<string>, key: string,
                   e: Entry, others: seq<Name>, now: nat, k: string)
    requires Hashes(hash) && TagInv(inner, owner) && AllHex(ids)
    ensures Shown(hash, inner[ItemKey(hash, ids, key) := e], others, now, k)
            == if AllSet(inner, others) && Ids(inner, others) == ids && k == key then
                 if CacheStore.Alive(e, now) then Some(e.value) else None
               else Shown(hash, inner, others, now, k)
  {
    var t := inner[ItemKey(hash, ids, key) := e];
    forall n ensures IdAt(t, n) == IdAt(inner, n) {
      ItemKeyIsNoTagKey(hash, ids, key, n);
    }
    if AllSet(inner, others) {
      var ys := Ids(inner, others);
      CurrentIsHex(inner, owner, others, ys);
      CurrentIds(t, others, ys);
      ItemKeysAreInjective(hash, ids, ys, key, k);
    }
  }

  // ------------------------------------------------------------------ the loops over the tags

  ghost predicate ResetUpTo(inner: Inner, owner0: map<string, Name>, names: seq<Name>, i: nat) {
    i <= |names| && forall j :: 0 <= j < i ==> IdAt(inner, names[j]).Some? && IdAt(inner, names[j]).value !in owner0
  }

  lemma OneMoreReset(inner: Inner, owner0: map<string, Name>, names: seq<Name>, i: nat, id: string)
    requires i < |names| && ResetUpTo(inner, owner0, names, i) && id !in owner0
    ensures ResetUpTo(Stored(inner, names[i], id), owner0, names, i + 1)
  {
    forall j | 0 <= j < i + 1
      ensures var r := IdAt(Stored(inner, names[i], id), names[j]); r.Some? && r.value !in owner0
    {
      StoredReads(inner, names[i], id, names[j]);
    }
  }

  /** The id settled on for a tag: what it held, or else one drawn since. */
  predicate Settles(was: Inner, owner0: map<string, Name>, owner: map<string, Name>, name: Name, id: string) {
    Owned(owner, id, name) && if IdAt(was, name).Some? then id == IdAt(was, name).value else id !in owner0
  }

  predicate NamedLast(names: seq<Name>, n: nat, j: nat)
    requires j < n <= |names|
  {
    forall k :: j < k < n ==> names[k] != names[j]
  }

  /** A tag holds the id settled on at the `j`th place unless a later place drew it another. */
  ghost predicate Stands(was: Inner, inner: Inner, names: seq<Name>, chosen: seq<string>, j: nat)
    requires j < |chosen| <= |names|
  {
    IdAt(inner, names[j]) == Some(chosen[j]) <==> IdAt(was, names[j]).Some? || NamedLast(names, |chosen|, j)
  }

  /** `was` and `owner0` are the store before the loop, `chosen` the ids settled on so far. */
  ghost predicate Chosen(was: Inner, owner0: map<string, Name>, inner: Inner, owner: map<string, Name>,
                         names: seq<Name>, chosen: seq<string>) {
    && TagInv(was, owner0) && Grows(owner0, owner) && KeepsSet(was, inner) && |chosen| <= |names|
    && (forall j :: 0 <= j < |chosen| ==> Settles(was, owner0, owner, names[j], chosen[j]))
    && (forall j :: 0 <= j < |chosen| ==> Renewed(was, owner0, inner, names[j]))
    && ((forall j :: 0 <= j < |chosen| ==> IdAt(was, names[j]).Some?) ==> inner == was)
    && (forall j :: 0 <= j < |chosen| ==> Stands(was, inner, names, chosen, j))
  }

  /** The tag holds an id now, and one never drawn before if it held none. */
  predicate Renewed(was: Inner, owner0: map<string, Name>, inner: Inner, name: Name) {
    IdAt(inner, name).Some? && (IdAt(was, name).None? ==> IdAt(inner, name).value !in owner0)
  }

  ghost predicate AllRenewed(was: Inner, owner0: map<string, Name>, inner: Inner, names: seq<Name>) {
    forall n :: n in names ==> Renewed(was, owner0, inner, n)
  }

  lemma TakesSet(was: Inner, owner0: map<string, Name>, inner: Inner, owner: map<string, Name>, names: seq<Name>,
                 chosen: seq<string>)
    requires Chosen(was, owner0, inner, owner, names, chosen) && |chosen| < |names| && IdAt(was, names[|chosen|]).Some?
    ensures Chosen(was, owner0, inner, owner, names, chosen + [IdAt(was, names[|chosen|]).value])
  {
    var name := names[|chosen|];
    var more := chosen + [IdAt(was, name).value];
    assert TagKey(name) in was && Owned(owner0, IdAt(was, name).value, name);
    if forall j :: 0 <= j < |chosen| + 1 ==> IdAt(was, names[j]).Some? {
      assert inner == was;
    }
    forall j | 0 <= j < |more|
      ensures Stands(was, inner, names, more, j) && Settles(was, owner0, owner, names[j], more[j])
    {
      if j < |chosen| {
        StandsAfterTaken(was, inner, names, chosen, more[|chosen|], j);
      }
    }
  }

  lemma StandsAfterTaken(was: Inner, inner: Inner, names: seq<Name>, chosen: seq<string>, id: string, j: nat)
    requires j < |chosen| < |names| && Stands(was, inner, names, chosen, j) && IdAt(was, names[|chosen|]).Some?
    ensures Stands(was, inner, names, chosen + [id], j)
  {
    if IdAt(was, names[j]).None? {
      assert NamedLast(names, |chosen|, j) <==> NamedLast(names, |chosen| + 1, j);
    }
  }

  lemma StandsAfterDrawn(was: Inner, inner: Inner, names: seq<Name>, chosen: seq<string>, id: string, j: nat)
    requires j < |chosen| < |names| && Stands(was, inner, names, chosen, j)
    requires IdAt(was, names[|chosen|]).None? && chosen[j] != id
    ensures Stands(was, Stored(inner, names[|chosen|], id), names, chosen + [id], j)
  {
    StoredReads(inner, names[|chosen|], id, names[j]);
    if names[j] == names[|chosen|] {
      assert !NamedLast(names, |chosen| + 1, j);
    } else {
      assert NamedLast(names, |chosen|, j) <==> NamedLast(names, |chosen| + 1, j);
    }
  }

  lemma DrawsMissing(was: Inner, owner0: map<string, Name>, inner: Inner, owner: map<string, Name>, names: seq<Name>,
                     chosen: seq<string>, id: string)
    requires Chosen(was, owner0, inner, owner, names, chosen) && |chosen| < |names| && IdAt(was, names[|chosen|]).None?
    requires id !in owner && Hex(id)
    ensures var name := names[|chosen|];
            Chosen(was, owner0, Stored(inner, name, id), owner[id := name], names, chosen + [id])
  {
    var name, more := names[|chosen|], chosen + [id];
    var t, owned := Stored(inner, name, id), owner[id := name];
    forall n ensures IdAt(t, n) == if n == name then Some(id) else IdAt(inner, n) {
      StoredReads(inner, name, id, n);
    }
    assert IdAt(was, names[|more| - 1]).None?;
    forall j | 0 <= j < |more|
      ensures Stands(was, t, names, more, j) && Settles(was, owner0, owned, names[j], more[j])
      ensures Renewed(was, owner0, t, names[j])
    {
      if j < |chosen| {
        assert Settles(was, owner0, owner, names[j], chosen[j]) && Renewed(was, owner0, inner, names[j]);
        StandsAfterDrawn(was, inner, names, chosen, id, j);
      }
    }
  }

  /** The tags hold the ids settled on exactly when no tag without an id is named twice. */
  lemma CurrentWhenMissingOnce(was: Inner, inner: Inner, owner: map<string, Name>, owner0: map<string, Name>,
                               names: seq<Name>, chosen: seq<string>)
    requires Chosen(was, owner0, inner, owner, names, chosen) && |chosen| == |names|
    ensures MissingOnce(was, names) <==> Current(inner, names, chosen)
  {
    forall j | 0 <= j < |names|
      ensures IdAt(inner, names[j]) == Some(chosen[j]) <==> IdAt(was, names[j]).Some? || NamedLast(names, |names|, j)
    {
      assert Stands(was, inner, names, chosen, j);
    }
  }

  lemma AllChosen(was: Inner, owner0: map<string, Name>, inner: Inner, owner: map<string, Name>, names: seq<Name>,
                  chosen: seq<string>)
    requires Chosen(was, owner0, inner, owner, names, chosen) && |chosen| == |names|
    ensures AllOwned(owner, chosen, names) && AllHex(chosen) && KeepsSet(was, inner)
    ensures AllRenewed(was, owner0, inner, names)
    ensures AllSet(was, names) ==> inner == was && chosen == Ids(inner, names)
    ensures !AllSet(was, names) ==> exists i :: 0 <= i < |chosen| && chosen[i] !in owner0
    ensures MissingOnce(was, names) <==> Current(inner, names, chosen)
  {
    CurrentWhenMissingOnce(was, inner, owner, owner0, names, chosen);
    forall i | 0 <= i < |names| ensures Owned(owner, chosen[i], names[i]) {
      assert Settles(was, owner0, owner, names[i], chosen[i]);
    }
    if i :| 0 <= i < |names| && IdAt(was, names[i]).None? {
      assert Settles(was, owner0, owner, names[i], chosen[i]);
    }
  }

  /** A tag that got its first id since shows nothing yet. */
  lemma RenewedShowsNothing(hash: string -> string, was: Inner, inner: Inner, owner0: map<string, Name>,
                            owner: map<string, Name>, names: seq<Name>, others: seq<Name>, now: nat, k: string)
    requires ItemInv(hash, was, owner0) && TagInv(inner, owner) && OnlyTags(hash, was, inner, names)
    requires AllRenewed(was, owner0, inner, names) && !AllSet(was, others)
    ensures Shown(hash, inner, others, now, k) == None
  {
    if AllSet(inner, others) {
      var i :| 0 <= i < |others| && IdAt(was, others[i]).None?;
      var ids := Ids(inner, others);
      CurrentIsHex(inner, owner, others, ids);
      assert IdAt(inner, others[i]).Some? && ids[i] == IdAt(inner, others[i]).value;
      assert others[i] !in names ==> SameAt(was, inner, TagKey(others[i]));
      FreshShowsNothing(hash, was, owner0, ids, i, k);
      assert SameAt(was, inner, ItemKey(hash, ids, k));
    }
  }

  /** What the tags lead to after a write under the ids settled on for `names`. */
  lemma PutShows(hash: string -> string, was: Inner, mid: Inner, owner0: map<string, Name>, owner: map<string, Name>,
                 names: seq<Name>, ids: seq<string>, key: string, e: Entry, others: seq<Name>, now: nat, k: string)
    requires Hashes(hash) && ItemInv(hash, was, owner0) && TagInv(mid, owner)
    requires OnlyTags(hash, was, mid, names) && KeepsSet(was, mid) && AllOwned(owner, ids, names) && AllHex(ids)
    requires AllRenewed(was, owner0, mid, names)
    requires MissingOnce(was, names) <==> Current(mid, names, ids)
    ensures Shown(hash, mid[ItemKey(hash, ids, key) := e], others, now, k)
            == if others != names || k != key then Shown(hash, was, others, now, k)
               else if MissingOnce(was, names) && CacheStore.Alive(e, now) then Some(e.value) else None
  {
    WriteShows(hash, mid, owner, ids, key, e, others, now, k);
    if AllSet(was, others) {
      SetTagsShowTheSame(hash, was, mid, names, others, now, k);
    } else {
      RenewedShowsNothing(hash, was, mid, owner0, owner, names, others, now, k);
    }
    if AllSet(mid, others) && Ids(mid, others) == ids {
      SameIdsSameTags(mid, owner, names, ids, others);
    } else if MissingOnce(was, names) {
      CurrentIds(mid, names, ids);
    } else {
      assert !AllSet(was, names);
    }
  }

  /**
   * These tags show the entry under this key until it expires, if no tag without an id was
   * named twice, and nothing if one was; any other tags and keys show what they did.
   */
  ghost predicate ShowsExactly(hash: string -> string, was: Inner, inner: Inner, names: seq<Name>, key: string,
                               e: Entry) {
    && (forall later :: Shown(hash, inner, names, later, key)
                        == if MissingOnce(was, names) && CacheStore.Alive(e, later) then Some(e.value) else None)
    && (forall others, later, k :: others != names || k != key ==>
          Shown(hash, inner, others, later, k) == Shown(hash, was, others, later, k))
  }

  lemma PutShowsOnce(hash: string -> string, was: Inner, mid: Inner, owner0: map<string, Name>,
                     owner: map<string, Name>, names: seq<Name>, ids: seq<string>, key: string, e: Entry)
    requires Hashes(hash) && ItemInv(hash, was, owner0) && TagInv(mid, owner)
    requires OnlyTags(hash, was, mid, names) && KeepsSet(was, mid) && AllOwned(owner, ids, names) && AllHex(ids)
    requires AllRenewed(was, owner0, mid, names)
    requires MissingOnce(was, names) <==> Current(mid, names, ids)
    ensures ShowsExactly(hash, was, mid[ItemKey(hash, ids, key) := e], names, key, e)
  {
    var t := mid[ItemKey(hash, ids, key) := e];
    forall later
      ensures Shown(hash, t, names, later, key)
              == if MissingOnce(was, names) && CacheStore.Alive(e, later) then Some(e.value) else None
    {
      PutShows(hash, was, mid, owner0, owner, names, ids, key, e, names, later, key);
    }
    forall others, later, k | others != names || k != key
      ensures Shown(hash, t, others, later, k) == Shown(hash, was, others, later, k)
    {
      PutShows(hash, was, mid, owner0, owner, names, ids, key, e, others, later, k);
    }
  }

  /** Reading under these ids now answers what the tags showed before. */
  ghost predicate ReadsAsShown(hash: string -> string, was: Inner, inner: Inner, names: seq<Name>, ids: seq<string>) {
    forall now, k :: CacheStore.Get(inner, now, ItemKey(hash, ids, k)) == Shown(hash, was, names, now, k)
  }

  // ------------------------------------------------------------------ the classes

  /** The driver under the tags, with the hash in use and the random ids it will be given. */
  class Driver {
    const hash: string -> string
    const draw: nat -> string
    var inner: Inner
    var drawn: nat
    ghost var owner: map<string, Name>

    ghost predicate Valid()
      reads this
    {
      && Hashes(hash) && TagInv(inner, owner) && ItemInv(hash, inner, owner)
      && (forall i :: Hex(draw(i))) && (forall i, j :: draw(i) == draw(j) ==> i == j)
      && (forall id :: id in owner ==> exists i :: 0 <= i < drawn && id == draw(i))
    }

    constructor (hash: string -> string, draw: nat -> string)
      requires Hashes(hash) && (forall i :: Hex(draw(i))) && (forall i, j :: draw(i) == draw(j) ==> i == j)
      ensures Valid() && inner == map[] && this.hash == hash
    {
      this.hash, this.draw := hash, draw;
      inner, drawn, owner := map[], 0, map[];
    }
  }

  class TagSet {
    const store: Driver
    const names: seq<Name>

    constructor (store: Driver, names: seq<Name>)
      ensures this.store == store && this.names == names
    {
      this.store, this.names := store, names;
    }

    method ResetTag(name: Name) returns (id: string)
      requires store.Valid()
      modifies store
      ensures store.Valid() && id !in old(store.owner) && Hex(id)
      ensures store.inner == Stored(old(store.inner), name, id) && store.owner == old(store.owner)[id := name]
    {
      id := store.draw(store.drawn);
      assert id !in store.owner;
      StoredKeepsTags(store.inner, store.owner, name, id);
      TagsKeepItems(store.hash, store.inner, store.owner, name, id);
      store.drawn := store.drawn + 1;
      store.inner := Stored(store.inner, name, id);
      store.owner := store.owner[id := name];
    }

    /** Every tag of the set gets an id never drawn before, and nothing else changes. */
    method Reset()
      requires store.Valid()
      modifies store
      ensures store.Valid() && Grows(old(store.owner), store.owner)
      ensures OnlyTags(store.hash, old(store.inner), store.inner, names)
      ensures forall n :: n in names ==> IdAt(store.inner, n).Some? && IdAt(store.inner, n).value !in old(store.owner)
    {
      for i := 0 to |names|
        invariant store.Valid() && Grows(old(store.owner), store.owner)
        invariant OnlyTags(store.hash, old(store.inner), store.inner, names)
        invariant ResetUpTo(store.inner, old(store.owner), names, i)
      {
        ghost var was := store.inner;
        var id := ResetTag(names[i]);
        StoredIsOnlyTags(store.hash, old(store.inner), was, names, names[i], id);
        OneMoreReset(was, old(store.owner), names, i, id);
      }
    }

    /** The ids of the set, joined: what each tag held, and a new id for each that held none. */
    method Namespace() returns (joined: string, ghost ids: seq<string>)
      requires store.Valid()
      modifies store
      ensures store.Valid() && Grows(old(store.owner), store.owner) && joined == Join(ids)
      ensures AllOwned(store.owner, ids, names) && AllHex(ids)
      ensures AllRenewed(old(store.inner), old(store.owner), store.inner, names)
      ensures OnlyTags(store.hash, old(store.inner), store.inner, names) && KeepsSet(old(store.inner), store.inner)
      ensures AllSet(old(store.inner), names) ==> store.inner == old(store.inner) && ids == Ids(store.inner, names)
      ensures !AllSet(old(store.inner), names) ==> exists i :: 0 <= i < |ids| && ids[i] !in old(store.owner)
      ensures MissingOnce(old(store.inner), names) <==> Current(store.inner, names, ids)
    {
      if names == [] {
        AllChosen(store.inner, store.owner, store.inner, store.owner, [], []);
        return "", [];
      }
      var found := Read(store.inner, names);
      var chosen: seq<string> := [];
      for i := 0 to |names|
        invariant store.Valid() && Grows(old(store.owner), store.owner) && |chosen| == i
        invariant OnlyTags(store.hash, old(store.inner), store.inner, names)
        invariant Chosen(old(store.inner), old(store.owner), store.inner, store.owner, names, chosen)
      {
        ghost var was, owner := store.inner, store.owner;
        if found[i].Some? {
          TakesSet(old(store.inner), old(store.owner), was, owner, names, chosen);
          chosen := chosen + [found[i].value];
        } else {
          var id := ResetTag(names[i]);
          StoredIsOnlyTags(store.hash, old(store.inner), was, names, names[i], id);
          DrawsMissing(old(store.inner), old(store.owner), was, owner, names, chosen, id);
          chosen := chosen + [id];
        }
      }
      AllChosen(old(store.inner), old(store.owner), store.inner, store.owner, names, chosen);
      joined, ids := Join(chosen), chosen;
    }
  }

  class NamespacedStore {
    const tags: TagSet

    constructor (tags: TagSet)
      ensures this.tags == tags
    {
      this.tags := tags;
    }

    /** Resolve the namespace once; what it shows of any key is what it showed before. */
    method Keyer() returns (hashed: string, ghost ids: seq<string>)
      requires tags.store.Valid()
      modifies tags.store
      ensures tags.store.Valid() && hashed == tags.store.hash(Join(ids))
      ensures AllOwned(tags.store.owner, ids, tags.names) && AllHex(ids)
      ensures AllRenewed(old(tags.store.inner), old(tags.store.owner), tags.store.inner, tags.names)
      ensures OnlyTags(tags.store.hash, old(tags.store.inner), tags.store.inner, tags.names)
      ensures KeepsSet(old(tags.store.inner), tags.store.inner)
      ensures MissingOnce(old(tags.store.inner), tags.names) <==> Current(tags.store.inner, tags.names, ids)
      ensures ReadsAsShown(tags.store.hash, old(tags.store.inner), tags.store.inner, tags.names, ids)
    {
      var joined;
      joined, ids := tags.Namespace();
      hashed := tags.store.hash(joined);
      forall now, k ensures CacheStore.Get(tags.store.inner, now, ItemKey(tags.store.hash, ids, k))
                            == Shown(tags.store.hash, old(tags.store.inner), tags.names, now, k)
      {
        if !AllSet(old(tags.store.inner), tags.names) {
          var i :| 0 <= i < |ids| && ids[i] !in old(tags.store.owner);
          FreshShowsNothing(tags.store.hash, old(tags.store.inner), old(tags.store.owner), ids, i, k);
          assert SameAt(old(tags.store.inner), tags.store.inner, ItemKey(tags.store.hash, ids, k));
        }
      }
    }

    method Get(now: nat, key: string) returns (r: Option<Value>)
      requires tags.store.Valid()
      modifies tags.store
      ensures tags.store.Valid() && r == Shown(tags.store.hash, old(tags.store.inner), tags.names, now, key)
      ensures OnlyTags(tags.store.hash, old(tags.store.inner), tags.store.inner, tags.names)
      ensures KeepsSet(old(tags.store.inner), tags.store.inner)
    {
      ghost var ids;
      var hashed;
      hashed, ids := Keyer();
      var at := hashed + [':'] + key;
      assert at == ItemKey(tags.store.hash, ids, key);
      r := CacheStore.Get(tags.store.inner, now, at);
    }

    /** Where each key is stored, under one namespace for all of them. */
    method Place(hashed: string, keys: seq<string>) returns (mapped: map<string, string>)
      ensures mapped.Keys == set k | k in keys
      ensures forall k :: k in keys ==> mapped[k] == hashed + [':'] + k
    {
      mapped := map[];
      for i := 0 to |keys|
        invariant mapped.Keys == set k | k in keys[..i]
        invariant forall k :: k in mapped ==> mapped[k] == hashed + [':'] + k
      {
        mapped := mapped[keys[i] := hashed + [':'] + keys[i]];
        assert keys[..i + 1] == keys[..i] + [keys[i]];
      }
      assert keys[..|keys|] == keys;
    }

    /** One answer for each key asked for, and each the answer `Get` would give. */
    method Many(now: nat, keys: seq<string>) returns (result: map<string, Option<Value>>)
      requires tags.store.Valid()
      modifies tags.store
      ensures tags.store.Valid() && result.Keys == set k | k in keys
      ensures forall k :: k in keys ==> result[k] == Shown(tags.store.hash, old(tags.store.inner), tags.names, now, k)
      ensures OnlyTags(tags.store.hash, old(tags.store.inner), tags.store.inner, tags.names)
      ensures KeepsSet(old(tags.store.inner), tags.store.inner)
    {
      ghost var ids;
      var hashed;
      hashed, ids := Keyer();
      var mapped := Place(hashed, keys);
      result := map k | k in mapped :: CacheStore.Get(tags.store.inner, now, mapped[k]);
      forall k | k in keys
        ensures result[k] == Shown(tags.store.hash, old(tags.store.inner), tags.names, now, k)
      {
        assert mapped[k] == ItemKey(tags.store.hash, ids, k);
      }
    }

    /**
     * The value shows under these tags and this key until it expires, and nothing else shows
     * anything new. Named twice, a tag without an id gets two, of which it keeps the second:
     * the value is then written where no tags lead.
     */
    method Put(now: nat, key: string, value: nat, seconds: int)
      requires tags.store.Valid()
      modifies tags.store
      ensures tags.store.Valid()
      ensures ShowsExactly(tags.store.hash, old(tags.store.inner), tags.store.inner, tags.names, key,
                           CacheStore.Entry(Data(value), CacheStore.ExpiresAt(now, seconds)))
    {
      ghost var ids;
      var hashed;
      hashed, ids := Keyer();
      ghost var hash, was, mid, names := tags.store.hash, old(tags.store.inner), tags.store.inner, tags.names;
      ghost var owner0, owner := old(tags.store.owner), tags.store.owner;
      var at := hashed + [':'] + key;
      var e := CacheStore.Entry(Data(value), CacheStore.ExpiresAt(now, seconds));
      assert at == ItemKey(hash, ids, key);
      ItemsKeepTags(hash, mid, owner, ids, key, e);
      WritesKeepItems(hash, mid, owner, ids, key, e);
      tags.store.inner := CacheStore.Put(tags.store.inner, now, at, Data(value), seconds);
      PutShowsOnce(hash, was, mid, owner0, owner, names, ids, key, e);
    }

    /** No key shows under any set that shares a tag with this one; every disjoint set shows what it did. */
    method Flush()
      requires tags.store.Valid()
      modifies tags.store
      ensures tags.store.Valid()
      ensures forall others, now, k :: (exists n :: n in others && n in tags.names)
                ==> Shown(tags.store.hash, tags.store.inner, others, now, k) == None
      ensures forall others, now, k :: (forall n :: n in tags.names ==> n !in others)
                ==> Shown(tags.store.hash, tags.store.inner, others, now, k)
                    == Shown(tags.store.hash, old(tags.store.inner), others, now, k)
    {
      tags.Reset();
      ghost var hash, was, inner, names := tags.store.hash, old(tags.store.inner), tags.store.inner, tags.names;
      forall others, now, k | exists n :: n in others && n in names
        ensures Shown(hash, inner, others, now, k) == None
      {
        if AllSet(inner, others) {
          var n :| n in others && n in names;
          var i :| 0 <= i < |others| && others[i] == n;
          var ids := Ids(inner, others);
          CurrentIsHex(inner, tags.store.owner, others, ids);
          FreshShowsNothing(hash, was, old(tags.store.owner), ids, i, k);
          assert SameAt(was, inner, ItemKey(hash, ids, k));
        }
      }
      forall others, now, k | forall n :: n in names ==> n !in others
        ensures Shown(hash, inner, others, now, k) == Shown(hash, was, others, now, k)
      {
        OtherTagsShowTheSame(hash, was, inner, names, others, now, k);
      }
    }
  }

  /** A tag nobody has used, named twice: what is put under it cannot be read back. */
  method WriteUnderOneTagTwice(hash: string -> string, draw: nat -> string, name: Name, key: string, value: nat,
                               seconds: int, now: nat) returns (read: Option<Value>)
    requires Hashes(hash) && (forall i :: Hex(draw(i))) && (forall i, j :: draw(i) == draw(j) ==> i == j)
    ensures read == None
  {
    var driver := new Driver(hash, draw);
    var tags := new TagSet(driver, [name, name]);
    var store := new NamespacedStore(tags);
    assert tags.names[0] == tags.names[1] && IdAt(driver.inner, tags.names[0]).None?;
    store.Put(now, key, value, seconds);
    read := store.Get(now, key);
  }
}
