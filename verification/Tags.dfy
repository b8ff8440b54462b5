/**
 * Cache tags. Each tag holds a random id, the namespace of a call is the ids of its tags
 * joined together, and an entry is stored under the hash of that namespace. Flushing a tag
 * gives it a new id, which is meant to put everything written under the old one out of reach.
 *
 * One inner store holds the tag ids and the entries alike. A call reads all its tag ids at
 * once, creates the missing ones one by one, and only then touches its entry, while other
 * calls and flushes run in between.
 */
module Tags {
  import opened Options
  import CacheStore

  datatype Value = Id(id: string) | Data(data: nat)
  type Entry = CacheStore.Entry<Value>
  type Inner = map<string, Entry>

  // ------------------------------------------------------------------ keys

  predicate Hex(s: string) {
    s != "" && forall i :: 0 <= i < |s| ==> '0' <= s[i] <= '9' || 'a' <= s[i] <= 'f'
  }

  function Join(ids: seq<string>): string {
    if ids == [] then ""
    else if |ids| == 1 then ids[0]
    else ids[0] + ['|'] + Join(ids[1..])
  }

  function TagKey(name: string): string {
    "tag" + [':'] + (name + ":key")
  }

  function ItemKey(hash: string -> string, ids: seq<string>, key: string): string {
    hash(Join(ids)) + [':'] + key
  }

  /** What is assumed of the hash: its text is hexadecimal, and no two namespaces collide. */
  ghost predicate Hashes(hash: string -> string) {
    && (forall text :: Hex(hash(text)))
    && (forall a, b :: hash(a) == hash(b) ==> a == b)
  }

  /** One function that is such a hash: each character in unary, and a mark after it. */
  function Unary(text: string): string {
    if text == "" then "0" else seq(text[0] as int, _ => 'a') + ['b'] + Unary(text[1..])
  }

  lemma {:induction false} UnaryIsHex(text: string)
    ensures Hex(Unary(text))
  {
    if text != "" {
      UnaryIsHex(text[1..]);
    }
  }

  lemma {:induction false} UnaryIsInjective(a: string, b: string)
    requires Unary(a) == Unary(b)
    ensures a == b
  {
    if a != "" && b != "" {
      var x, y := seq(a[0] as int, _ => 'a'), seq(b[0] as int, _ => 'a');
      CutOnce(x, y, Unary(a[1..]), Unary(b[1..]), 'b');
      assert |x| == a[0] as int && |y| == b[0] as int;
      UnaryIsInjective(a[1..], b[1..]);
      assert a == [a[0]] + a[1..] && b == [b[0]] + b[1..];
    } else {
      StartsUnlikeEmpty(a);
      StartsUnlikeEmpty(b);
    }
  }

  lemma StartsUnlikeEmpty(text: string)
    ensures text == "" <==> Unary(text)[0] == '0'
  {
    if text != "" {
      assert Unary(text)[0] == if text[0] as int == 0 then 'b' else 'a';
    }
  }

  /** The assumption can be met. */
  lemma SomeHashWillDo()
    ensures exists hash :: Hashes(hash)
  {
    forall text ensures Hex(Unary(text)) {
      UnaryIsHex(text);
    }
    forall a, b | Unary(a) == Unary(b) ensures a == b {
      UnaryIsInjective(a, b);
    }
    assert Hashes(Unary);
  }

  ghost predicate AllHex(ids: seq<string>) {
    forall i :: 0 <= i < |ids| ==> Hex(ids[i])
  }

  lemma CutOnce(a: string, b: string, x: string, y: string, mark: char)
    requires mark !in a && mark !in b && a + [mark] + x == b + [mark] + y
    ensures a == b && x == y
  {
    var whole := a + [mark] + x;
    assert whole[|a|] == mark && whole[|b|] == mark;
    assert whole[..|a|] == a && whole[..|b|] == b;
    assert |b| <= |a| by {
      assert forall i :: 0 <= i < |b| ==> whole[i] == b[i];
    }
    assert |a| <= |b| by {
      assert forall i :: 0 <= i < |a| ==> whole[i] == a[i];
    }
    assert whole[|a| + 1..] == x && whole[|b| + 1..] == y;
  }

  lemma {:induction false} JoinIsInjective(xs: seq<string>, ys: seq<string>)
    requires AllHex(xs) && AllHex(ys) && Join(xs) == Join(ys)
    ensures xs == ys
  {
    if |xs| > 1 && |ys| > 1 {
      CutOnce(xs[0], ys[0], Join(xs[1..]), Join(ys[1..]), '|');
      JoinIsInjective(xs[1..], ys[1..]);
      assert xs == [xs[0]] + xs[1..] && ys == [ys[0]] + ys[1..];
    } else {
      BarShowsLength(xs);
      BarShowsLength(ys);
    }
  }

  lemma BarShowsLength(xs: seq<string>)
    requires AllHex(xs)
    ensures '|' in Join(xs) <==> |xs| > 1
    ensures Join(xs) == "" <==> xs == []
  {
    if |xs| > 1 {
      assert Join(xs)[|xs[0]|] == '|';
    }
  }

  /** Two entries share a key exactly when they share every tag id, in order, and the caller's key. */
  lemma ItemKeysAreInjective(hash: string -> string, xs: seq<string>, ys: seq<string>, k: string, l: string)
    requires Hashes(hash) && AllHex(xs) && AllHex(ys)
    ensures ItemKey(hash, xs, k) == ItemKey(hash, ys, l) <==> xs == ys && k == l
  {
    if ItemKey(hash, xs, k) == ItemKey(hash, ys, l) {
      assert Hex(hash(Join(xs))) && Hex(hash(Join(ys)));
      CutOnce(hash(Join(xs)), hash(Join(ys)), k, l, ':');
      JoinIsInjective(xs, ys);
    }
  }

  /** No entry can be stored where a tag keeps its id. */
  lemma ItemKeyIsNoTagKey(hash: string -> string, ids: seq<string>, key: string, name: string)
    requires Hashes(hash)
    ensures ItemKey(hash, ids, key) != TagKey(name)
  {
    assert Hex(hash(Join(ids)));
    assert ItemKey(hash, ids, key)[0] == hash(Join(ids))[0] != 't';
  }

  lemma TagKeysAreInjective(a: string, b: string)
    ensures TagKey(a) == TagKey(b) <==> a == b
  {
    if TagKey(a) == TagKey(b) {
      assert TagKey(a)[4..|a| + 4] == a && TagKey(b)[4..|b| + 4] == b;
    }
  }

  // ------------------------------------------------------------------ calls and their steps

  type Name = string
  type CallId = nat

  /** A call of `keyer`: the tag ids it read, and the ids it settled on so far. */
  datatype Call = Call(names: seq<Name>, found: seq<Option<string>>, ids: seq<string>) {
    predicate Resolved() {
      |ids| == |names|
    }
  }

  /** `owner` remembers which tag each id was drawn for, `origin` who wrote each entry. */
  datatype State = State(inner: Inner, calls: map<CallId, Call>, owner: map<string, Name>, origin: map<string, Call>)

  datatype Step =
    | Open(call: CallId, names: seq<Name>)
    | Resolve(call: CallId, id: string)
    | Write(call: CallId, key: string, value: nat, seconds: int, now: nat)
    | Drop(call: CallId, key: string)
    | Reset(name: Name, id: string)
    | Evict(at: string)

  function IdAt(inner: Inner, name: Name): Option<string> {
    if TagKey(name) in inner && inner[TagKey(name)].value.Id? then Some(inner[TagKey(name)].value.id) else None
  }

  function Read(inner: Inner, names: seq<Name>): seq<Option<string>> {
    seq(|names|, i requires 0 <= i < |names| => IdAt(inner, names[i]))
  }

  function Stored(inner: Inner, name: Name, id: string): Inner {
    inner[TagKey(name) := CacheStore.Entry(Id(id), CacheStore.FOREVER)]
  }

  predicate Unresolved(s: State, call: CallId) {
    call in s.calls && |s.calls[call].ids| < |s.calls[call].names| == |s.calls[call].found|
  }

  predicate Ready(s: State, call: CallId) {
    call in s.calls && s.calls[call].Resolved()
  }

  predicate Fresh(s: State, id: string) {
    id !in s.owner && Hex(id)
  }

  predicate Enabled(s: State, step: Step) {
    match step
    case Open(call, _) => call !in s.calls
    case Resolve(call, id) => Unresolved(s, call) && Fresh(s, id)
    case Write(call, _, _, _, _) => Ready(s, call)
    case Drop(call, _) => Ready(s, call)
    case Reset(_, id) => Fresh(s, id)
    case Evict(_) => true
  }

  /** One turn of the loop over the tags: take the id that was read, or draw a new one. */
  function Taken(c: Call, id: string): Call
    requires |c.ids| < |c.names| == |c.found|
  {
    c.(ids := c.ids + [if c.found[|c.ids|].Some? then c.found[|c.ids|].value else id])
  }

  function ResolveOne(s: State, call: CallId, id: string): State
    requires Unresolved(s, call) && Fresh(s, id)
  {
    var c := s.calls[call];
    var t := s.(calls := s.calls[call := Taken(c, id)]);
    if c.found[|c.ids|].Some? then t
    else t.(inner := Stored(s.inner, c.names[|c.ids|], id), owner := s.owner[id := c.names[|c.ids|]])
  }

  function Next(hash: string -> string, s: State, step: Step): State
    requires Enabled(s, step)
  {
    match step
    case Open(call, names) => s.(calls := s.calls[call := Call(names, Read(s.inner, names), [])])
    case Resolve(call, id) => ResolveOne(s, call, id)
    case Write(call, key, value, seconds, now) =>
      var at := ItemKey(hash, s.calls[call].ids, key);
      s.(inner := CacheStore.Put(s.inner, now, at, Data(value), seconds), origin := s.origin[at := s.calls[call]])
    case Drop(call, key) => s.(inner := CacheStore.Forget(s.inner, ItemKey(hash, s.calls[call].ids, key)))
    case Reset(name, id) => s.(inner := Stored(s.inner, name, id), owner := s.owner[id := name])
    case Evict(at) => s.(inner := CacheStore.Forget(s.inner, at))
  }

  ghost predicate Runs(hash: string -> string, s: State, steps: seq<Step>)
    decreases |steps|
  {
    steps == [] || (Enabled(s, steps[0]) && Runs(hash, Next(hash, s, steps[0]), steps[1..]))
  }

  ghost function Run(hash: string -> string, s: State, steps: seq<Step>): State
    requires Runs(hash, s, steps)
    decreases |steps|
  {
    if steps == [] then s else Run(hash, Next(hash, s, steps[0]), steps[1..])
  }

  const EMPTY: State := State(map[], map[], map[], map[])

  // ------------------------------------------------------------------ every id belongs to one tag

  predicate Owned(owner: map<string, Name>, id: string, name: Name) {
    id in owner && owner[id] == name && Hex(id)
  }

  ghost predicate CallInv(owner: map<string, Name>, c: Call) {
    && |c.ids| <= |c.names| == |c.found|
    && (forall i :: 0 <= i < |c.ids| ==> Owned(owner, c.ids[i], c.names[i]))
    && (forall i :: 0 <= i < |c.found| && c.found[i].Some? ==> Owned(owner, c.found[i].value, c.names[i]))
    && (forall i :: 0 <= i < |c.ids| && c.found[i].Some? ==> c.ids[i] == c.found[i].value)
  }

  /** Every id that a tag key holds was drawn for that tag, and it never expires. */
  ghost predicate TagInv(inner: Inner, owner: map<string, Name>) {
    forall name {:trigger TagKey(name)} :: TagKey(name) in inner ==>
      && inner[TagKey(name)].value.Id? && inner[TagKey(name)].expires == CacheStore.FOREVER
      && Owned(owner, inner[TagKey(name)].value.id, name)
  }

  ghost predicate CallsInv(owner: map<string, Name>, calls: map<CallId, Call>) {
    forall c :: c in calls ==> CallInv(owner, calls[c])
  }

  /** An entry was written by a call that had settled all its ids, under a key of its own. */
  ghost predicate Wrote(hash: string -> string, owner: map<string, Name>, at: string, c: Call) {
    && CallInv(owner, c) && c.Resolved()
    && exists key :: at == ItemKey(hash, c.ids, key)
  }

  ghost predicate OriginInv(hash: string -> string, owner: map<string, Name>, origin: map<string, Call>) {
    forall at :: at in origin ==> Wrote(hash, owner, at, origin[at])
  }

  ghost predicate Inv(hash: string -> string, s: State) {
    TagInv(s.inner, s.owner) && CallsInv(s.owner, s.calls) && OriginInv(hash, s.owner, s.origin)
  }

  ghost predicate Grows(a: map<string, Name>, b: map<string, Name>) {
    forall id :: id in a ==> id in b && b[id] == a[id]
  }

  lemma OwnersOnlyGrow(a: map<string, Name>, b: map<string, Name>, c: Call)
    requires CallInv(a, c) && Grows(a, b)
    ensures CallInv(b, c)
  {}

  lemma CallsOutliveOwners(hash: string -> string, a: map<string, Name>, b: map<string, Name>, calls: map<CallId, Call>,
                           origin: map<string, Call>)
    requires Grows(a, b) && CallsInv(a, calls) && OriginInv(hash, a, origin)
    ensures CallsInv(b, calls) && OriginInv(hash, b, origin)
  {
    forall c | CallInv(a, c) ensures CallInv(b, c) {
      OwnersOnlyGrow(a, b, c);
    }
    forall at | at in origin ensures Wrote(hash, b, at, origin[at]) {
      assert Wrote(hash, a, at, origin[at]);
    }
  }

  lemma StoredKeepsTags(inner: Inner, owner: map<string, Name>, name: Name, id: string)
    requires TagInv(inner, owner) && id !in owner && Hex(id)
    ensures TagInv(Stored(inner, name, id), owner[id := name])
  {
    forall n | TagKey(n) in Stored(inner, name, id)
      ensures var e := Stored(inner, name, id)[TagKey(n)];
              e.value.Id? && e.expires == CacheStore.FOREVER && Owned(owner[id := name], e.value.id, n)
    {
      TagKeysAreInjective(n, name);
    }
  }

  lemma ItemsKeepTags(hash: string -> string, inner: Inner, owner: map<string, Name>, ids: seq<string>, key: string,
                      e: Entry)
    requires Hashes(hash) && TagInv(inner, owner)
    ensures TagInv(inner[ItemKey(hash, ids, key) := e], owner)
  {
    forall n ensures TagKey(n) != ItemKey(hash, ids, key) {
      ItemKeyIsNoTagKey(hash, ids, key, n);
    }
  }

  lemma ReadIsOwned(inner: Inner, owner: map<string, Name>, names: seq<Name>)
    requires TagInv(inner, owner)
    ensures CallInv(owner, Call(names, Read(inner, names), []))
  {
    forall i | 0 <= i < |names| && IdAt(inner, names[i]).Some?
      ensures Owned(owner, IdAt(inner, names[i]).value, names[i])
    {}
  }

  lemma TakenIsOwned(owner: map<string, Name>, c: Call, id: string)
    requires CallInv(owner, c) && |c.ids| < |c.names|
    requires c.found[|c.ids|].None? ==> Owned(owner, id, c.names[|c.ids|])
    ensures CallInv(owner, Taken(c, id))
  {}

  lemma ResolveKeeps(hash: string -> string, s: State, call: CallId, id: string)
    requires Inv(hash, s) && Unresolved(s, call) && Fresh(s, id)
    ensures Inv(hash, ResolveOne(s, call, id))
  {
    var c := s.calls[call];
    var name := c.names[|c.ids|];
    if c.found[|c.ids|].None? {
      var owner := s.owner[id := name];
      StoredKeepsTags(s.inner, s.owner, name, id);
      CallsOutliveOwners(hash, s.owner, owner, s.calls, s.origin);
      TakenIsOwned(owner, c, id);
    } else {
      TakenIsOwned(s.owner, c, id);
    }
  }

  lemma WriteKeeps(hash: string -> string, s: State, call: CallId, key: string, value: nat, seconds: int, now: nat)
    requires Hashes(hash) && Inv(hash, s) && Ready(s, call)
    ensures Inv(hash, Next(hash, s, Write(call, key, value, seconds, now)))
  {
    var c := s.calls[call];
    ItemsKeepTags(hash, s.inner, s.owner, c.ids, key,
                  CacheStore.Entry(Data(value), CacheStore.ExpiresAt(now, seconds)));
    assert Wrote(hash, s.owner, ItemKey(hash, c.ids, key), c);
  }

  /** Every step keeps the invariant, and no id changes hands. */
  lemma NextKeeps(hash: string -> string, s: State, step: Step)
    requires Hashes(hash) && Inv(hash, s) && Enabled(s, step)
    ensures Inv(hash, Next(hash, s, step)) && Grows(s.owner, Next(hash, s, step).owner)
  {
    match step
    case Open(call, names) => ReadIsOwned(s.inner, s.owner, names);
    case Resolve(call, id) => ResolveKeeps(hash, s, call, id);
    case Write(call, key, value, seconds, now) => WriteKeeps(hash, s, call, key, value, seconds, now);
    case Drop(call, key) =>
    case Reset(name, id) =>
      StoredKeepsTags(s.inner, s.owner, name, id);
      CallsOutliveOwners(hash, s.owner, s.owner[id := name], s.calls, s.origin);
    case Evict(at) =>
  }

  // ------------------------------------------------------------------ flushed for good

  /** The ids a tag had drawn before it was flushed. */
  ghost function Drawn(owner: map<string, Name>, tag: Name): set<string> {
    set id | id in owner && owner[id] == tag
  }

  ghost predicate Avoids(c: Call, tag: Name, retired: set<string>) {
    && (forall i :: 0 <= i < |c.ids| && i < |c.names| && c.names[i] == tag ==> c.ids[i] !in retired)
    && (forall i :: 0 <= i < |c.found| && i < |c.names| && c.names[i] == tag && c.found[i].Some? ==>
         c.found[i].value !in retired)
  }

  ghost predicate TagAvoids(inner: Inner, tag: Name, retired: set<string>) {
    IdAt(inner, tag).Some? ==> IdAt(inner, tag).value !in retired
  }

  ghost predicate CallsAvoid(calls: map<CallId, Call>, tag: Name, retired: set<string>, earlier: set<CallId>) {
    forall c :: c in calls && c !in earlier ==> Avoids(calls[c], tag, retired)
  }

  /** The retired ids are gone from the store and from every call that is not one of `earlier`. */
  ghost predicate Retired(s: State, tag: Name, retired: set<string>, earlier: set<CallId>) {
    && (forall id :: id in retired ==> id in s.owner)
    && TagAvoids(s.inner, tag, retired) && CallsAvoid(s.calls, tag, retired, earlier)
    && earlier <= s.calls.Keys
  }

  lemma StoredReads(inner: Inner, name: Name, id: string, other: Name)
    ensures IdAt(Stored(inner, name, id), other) == if other == name then Some(id) else IdAt(inner, other)
  {
    TagKeysAreInjective(name, other);
  }

  lemma TakenAvoids(c: Call, id: string, tag: Name, retired: set<string>)
    requires Avoids(c, tag, retired) && |c.ids| < |c.names| == |c.found| && id !in retired
    ensures Avoids(Taken(c, id), tag, retired)
  {}

  lemma ResolveKeepsRetired(s: State, call: CallId, id: string, tag: Name, retired: set<string>, earlier: set<CallId>)
    requires Unresolved(s, call) && Fresh(s, id) && Retired(s, tag, retired, earlier)
    ensures Retired(ResolveOne(s, call, id), tag, retired, earlier)
  {
    var c := s.calls[call];
    StoredReads(s.inner, c.names[|c.ids|], id, tag);
    if call !in earlier {
      TakenAvoids(c, id, tag, retired);
    }
  }

  lemma StepKeepsRetired(hash: string -> string, s: State, step: Step, tag: Name, retired: set<string>,
                         earlier: set<CallId>)
    requires Hashes(hash) && Enabled(s, step) && Retired(s, tag, retired, earlier)
    ensures Retired(Next(hash, s, step), tag, retired, earlier)
  {
    match step
    case Open(call, names) =>
      assert Avoids(Call(names, Read(s.inner, names), []), tag, retired);
    case Resolve(call, id) => ResolveKeepsRetired(s, call, id, tag, retired, earlier);
    case Write(call, key, value, seconds, now) => ItemKeyIsNoTagKey(hash, s.calls[call].ids, key, tag);
    case Drop(call, key) =>
    case Reset(name, id) => StoredReads(s.inner, name, id, tag);
    case Evict(at) =>
  }

  /** A call keeps its tags and what it read, and every id it settled on. */
  ghost predicate Continues(a: map<CallId, Call>, b: map<CallId, Call>) {
    forall c :: c in a ==> c in b && b[c].names == a[c].names && b[c].found == a[c].found && a[c].ids <= b[c].ids
  }

  lemma {:induction false} RunKeepsRetired(hash: string -> string, s: State, steps: seq<Step>, tag: Name,
                                           retired: set<string>,
                                           earlier: set<CallId>)
    requires Hashes(hash) && Inv(hash, s) && Runs(hash, s, steps) && Retired(s, tag, retired, earlier)
    ensures Inv(hash, Run(hash, s, steps)) && Retired(Run(hash, s, steps), tag, retired, earlier)
    decreases |steps|
  {
    if steps != [] {
      NextKeeps(hash, s, steps[0]);
      StepKeepsRetired(hash, s, steps[0], tag, retired, earlier);
      RunKeepsRetired(hash, Next(hash, s, steps[0]), steps[1..], tag, retired, earlier);
    }
  }

  lemma StepContinues(hash: string -> string, s: State, step: Step)
    requires Enabled(s, step)
    ensures Continues(s.calls, Next(hash, s, step).calls) && Grows(s.owner, Next(hash, s, step).owner)
  {}

  lemma {:induction false} RunContinues(hash: string -> string, s: State, steps: seq<Step>)
    requires Runs(hash, s, steps)
    ensures Continues(s.calls, Run(hash, s, steps).calls) && Grows(s.owner, Run(hash, s, steps).owner)
    decreases |steps|
  {
    if steps != [] {
      StepContinues(hash, s, steps[0]);
      RunContinues(hash, Next(hash, s, steps[0]), steps[1..]);
    }
  }

  /** The call has the tag's id in hand: read, or drawn by itself. */
  predicate Holds(c: Call, tag: Name) {
    exists i :: 0 <= i < |c.names| && c.names[i] == tag && (i < |c.ids| || (i < |c.found| && c.found[i].Some?))
  }

  /** A namespace that holds a retired id meets no namespace that avoids them all. */
  lemma NamespacesPart(hash: string -> string, owner: map<string, Name>, past: Call, now: Call, tag: Name,
                       retired: set<string>,
                       at: nat, k: string, l: string)
    requires Hashes(hash) && CallInv(owner, past) && CallInv(owner, now) && now.Resolved()
    requires at < |past.ids| && past.names[at] == tag && past.ids[at] in retired
    requires Avoids(now, tag, retired)
    ensures ItemKey(hash, past.ids, k) != ItemKey(hash, now.ids, l)
  {
    assert AllHex(past.ids) && AllHex(now.ids);
    ItemKeysAreInjective(hash, past.ids, now.ids, k, l);
    if at < |now.ids| {
      assert Owned(owner, now.ids[at], now.names[at]) && Owned(owner, past.ids[at], tag);
    }
  }

  /** What a call that held the tag's id before the flush may name, even by the end of the run. */
  lemma HolderIsTainted(hash: string -> string, before: State, owner: map<string, Name>, past: Call, grown: Call,
                        now: Call,
                        tag: Name, k: string, l: string)
    requires Hashes(hash) && CallInv(before.owner, past) && Holds(past, tag)
    requires Grows(before.owner, owner) && CallInv(owner, grown) && grown.Resolved()
    requires grown.names == past.names && grown.found == past.found && past.ids <= grown.ids
    requires CallInv(owner, now) && now.Resolved() && Avoids(now, tag, Drawn(before.owner, tag))
    ensures ItemKey(hash, grown.ids, k) != ItemKey(hash, now.ids, l)
  {
    var i :| 0 <= i < |past.names| && past.names[i] == tag && (i < |past.ids| || past.found[i].Some?);
    assert grown.ids[i] in Drawn(before.owner, tag);
    NamespacesPart(hash, owner, grown, now, tag, Drawn(before.owner, tag), i, k, l);
  }

  /**
   * From the moment a tag gets its new id, no call that starts afterwards, under any tags
   * and in whatever run follows, names an entry written before under a set holding that
   * tag, nor one that a call already holding the former id writes later on.
   */
  lemma FlushedStaysUnreachable(hash: string -> string, s: State, tag: Name, id: string, steps: seq<Step>,
                                later: CallId, key: string)
    requires Hashes(hash) && Inv(hash, s) && Enabled(s, Reset(tag, id))
    requires Runs(hash, Next(hash, s, Reset(tag, id)), steps)
    requires later !in s.calls && Ready(Run(hash, Next(hash, s, Reset(tag, id)), steps), later)
    ensures var end := Run(hash, Next(hash, s, Reset(tag, id)), steps);
            var at := ItemKey(hash, end.calls[later].ids, key);
            && (at in s.origin ==> tag !in s.origin[at].names)
            && (forall c, k :: c in s.calls && Holds(s.calls[c], tag) && Ready(end, c) ==>
                 at != ItemKey(hash, end.calls[c].ids, k))
  {
    var t := Next(hash, s, Reset(tag, id));
    NextKeeps(hash, s, Reset(tag, id));
    StoredReads(s.inner, tag, id, tag);
    RunKeepsRetired(hash, t, steps, tag, Drawn(s.owner, tag), s.calls.Keys);
    RunContinues(hash, t, steps);
    var end := Run(hash, t, steps);
    var at := ItemKey(hash, end.calls[later].ids, key);
    if at in s.origin && tag in s.origin[at].names {
      var past := s.origin[at];
      var k :| at == ItemKey(hash, past.ids, k);
      OwnersOnlyGrow(s.owner, end.owner, past);
      HolderIsTainted(hash, s, end.owner, past, past, end.calls[later], tag, k, key);
    }
    forall c, k | c in s.calls && Holds(s.calls[c], tag) && Ready(end, c)
      ensures at != ItemKey(hash, end.calls[c].ids, k)
    {
      HolderIsTainted(hash, s, end.owner, s.calls[c], end.calls[c], end.calls[later], tag, k, key);
    }
  }

  /** Every state a run from the empty store reaches. */
  lemma {:induction false} EveryRunKeepsIds(hash: string -> string, steps: seq<Step>)
    requires Hashes(hash) && Runs(hash, EMPTY, steps)
    ensures Inv(hash, Run(hash, EMPTY, steps))
  {
    RunKeepsRetired(hash, EMPTY, steps, "", {}, {});
  }

  /** Every entry in the store has its writer on record, whose ids make its key. */
  ghost predicate AllSigned(hash: string -> string, s: State) {
    forall at :: at in s.inner && s.inner[at].value.Data? ==> at in s.origin && Signed(hash, at, s.origin[at])
  }

  ghost predicate Signed(hash: string -> string, at: string, c: Call) {
    c.Resolved() && exists key :: at == ItemKey(hash, c.ids, key)
  }

  lemma NextSigned(hash: string -> string, s: State, step: Step)
    requires AllSigned(hash, s) && Enabled(s, step)
    ensures AllSigned(hash, Next(hash, s, step))
  {
    if step.Write? {
      assert Signed(hash, ItemKey(hash, s.calls[step.call].ids, step.key), s.calls[step.call]);
    }
  }

  lemma {:induction false} EveryEntryIsSigned(hash: string -> string, s: State, steps: seq<Step>)
    requires AllSigned(hash, s) && Runs(hash, s, steps)
    ensures AllSigned(hash, Run(hash, s, steps))
    decreases |steps|
  {
    if steps != [] {
      NextSigned(hash, s, steps[0]);
      EveryEntryIsSigned(hash, Next(hash, s, steps[0]), steps[1..]);
    }
  }

  /**
   * In any run from the empty store every entry has its writer on record, and from the
   * moment a tag gets its new id, no call that starts afterwards, under any tags and however
   * the run goes on, names an entry written before under a set holding that tag, nor one
   * that a call already holding the former id writes later on.
   */
  lemma FlushIsFinal(hash: string -> string, before: seq<Step>, tag: Name, id: string, steps: seq<Step>, later: CallId,
                     key: string)
    requires Hashes(hash) && Runs(hash, EMPTY, before) && Enabled(Run(hash, EMPTY, before), Reset(tag, id))
    requires Runs(hash, Next(hash, Run(hash, EMPTY, before), Reset(tag, id)), steps)
    requires later !in Run(hash, EMPTY, before).calls
    requires Ready(Run(hash, Next(hash, Run(hash, EMPTY, before), Reset(tag, id)), steps), later)
    ensures var s := Run(hash, EMPTY, before);
            var end := Run(hash, Next(hash, s, Reset(tag, id)), steps);
            var at := ItemKey(hash, end.calls[later].ids, key);
            && (at in s.inner && s.inner[at].value.Data? ==> at in s.origin)
            && (at in s.origin ==> tag !in s.origin[at].names)
            && forall c, k :: c in s.calls && Holds(s.calls[c], tag) && Ready(end, c) ==>
                 at != ItemKey(hash, end.calls[c].ids, k)
  {
    EveryRunKeepsIds(hash, before);
    EveryEntryIsSigned(hash, EMPTY, before);
    FlushedStaysUnreachable(hash, Run(hash, EMPTY, before), tag, id, steps, later, key);
  }

  // ------------------------------------------------------------------ what a flush leaves alone

  ghost predicate Current(inner: Inner, names: seq<Name>, ids: seq<string>) {
    |ids| == |names| && forall i :: 0 <= i < |names| ==> IdAt(inner, names[i]) == Some(ids[i])
  }

  /** The step draws no new id for the set, and touches neither its tag keys nor this entry. */
  ghost predicate Spares(hash: string -> string, s: State, step: Step, names: seq<Name>, ids: seq<string>, key: string)
    requires Enabled(s, step)
  {
    match step
    case Open(_, _) => true
    case Resolve(call, _) =>
      s.calls[call].found[|s.calls[call].ids|].Some?
      || s.calls[call].names[|s.calls[call].ids|] !in names
    case Write(call, k, _, _, _) => s.calls[call].names != names || k != key
    case Drop(call, k) => s.calls[call].names != names || k != key
    case Reset(name, _) => name !in names
    case Evict(at) => at != ItemKey(hash, ids, key) && forall n :: n in names ==> at != TagKey(n)
  }

  ghost predicate AllSpare(hash: string -> string, s: State, steps: seq<Step>, names: seq<Name>, ids: seq<string>,
                           key: string)
    requires Runs(hash, s, steps)
    decreases |steps|
  {
    steps != [] ==>
      && Spares(hash, s, steps[0], names, ids, key)
      && AllSpare(hash, Next(hash, s, steps[0]), steps[1..], names, ids, key)
  }

  /** Nothing about the entry or its namespace changed. */
  ghost predicate Untouched(hash: string -> string, a: Inner, b: Inner, names: seq<Name>, ids: seq<string>,
                            key: string) {
    var at := ItemKey(hash, ids, key);
    Current(a, names, ids) && Current(b, names, ids) && (at in a <==> at in b) && (at in a ==> a[at] == b[at])
  }

  lemma StoredSpares(hash: string -> string, inner: Inner, name: Name, id: string, names: seq<Name>, ids: seq<string>,
                     key: string)
    requires Hashes(hash) && Current(inner, names, ids) && name !in names
    ensures Untouched(hash, inner, Stored(inner, name, id), names, ids, key)
  {
    ItemKeyIsNoTagKey(hash, ids, key, name);
    forall i | 0 <= i < |names| ensures IdAt(Stored(inner, name, id), names[i]) == Some(ids[i]) {
      StoredReads(inner, name, id, names[i]);
    }
  }

  /** Whoever holds the same ids was given them for the same tags. */
  lemma SameIdsSameNames(owner: map<string, Name>, inner: Inner, c: Call, names: seq<Name>, ids: seq<string>)
    requires TagInv(inner, owner) && CallInv(owner, c) && c.Resolved() && Current(inner, names, ids) && c.ids == ids
    ensures c.names == names
  {
    forall i | 0 <= i < |names| ensures c.names[i] == names[i] {
      assert IdAt(inner, names[i]) == Some(ids[i]) && Owned(owner, c.ids[i], c.names[i]);
    }
  }

  lemma OtherKey(hash: string -> string, owner: map<string, Name>, inner: Inner, c: Call, k: string, names: seq<Name>,
                 ids: seq<string>,
                 key: string)
    requires Hashes(hash) && TagInv(inner, owner) && CallInv(owner, c) && c.Resolved() && Current(inner, names, ids)
    requires c.names != names || k != key
    ensures ItemKey(hash, c.ids, k) != ItemKey(hash, ids, key)
    ensures forall n :: n in names ==> ItemKey(hash, c.ids, k) != TagKey(n)
  {
    assert AllHex(ids) by {
      forall i | 0 <= i < |ids| ensures Hex(ids[i]) {
        assert IdAt(inner, names[i]) == Some(ids[i]);
      }
    }
    ItemKeysAreInjective(hash, c.ids, ids, k, key);
    if c.ids == ids {
      SameIdsSameNames(owner, inner, c, names, ids);
    }
    forall n | n in names ensures ItemKey(hash, c.ids, k) != TagKey(n) {
      ItemKeyIsNoTagKey(hash, c.ids, k, n);
    }
  }

  lemma SparedStep(hash: string -> string, s: State, step: Step, names: seq<Name>, ids: seq<string>, key: string)
    requires Hashes(hash) && Inv(hash, s) && Enabled(s, step) && Current(s.inner, names, ids)
    requires Spares(hash, s, step, names, ids, key)
    ensures Untouched(hash, s.inner, Next(hash, s, step).inner, names, ids, key)
  {
    match step
    case Open(call, _) =>
    case Resolve(call, id) =>
      var c := s.calls[call];
      if c.found[|c.ids|].None? {
        StoredSpares(hash, s.inner, c.names[|c.ids|], id, names, ids, key);
      }
    case Write(call, k, _, _, _) => OtherKey(hash, s.owner, s.inner, s.calls[call], k, names, ids, key);
    case Drop(call, k) => OtherKey(hash, s.owner, s.inner, s.calls[call], k, names, ids, key);
    case Reset(name, id) => StoredSpares(hash, s.inner, name, id, names, ids, key);
    case Evict(at) =>
  }

  /**
   * Flushing other tags, and every call under another set or for another key, leaves an
   * entry as readable as it was, at every later clock and in every interleaving.
   */
  lemma {:induction false} OthersStayReadable(hash: string -> string, s: State, steps: seq<Step>, names: seq<Name>,
                                              ids: seq<string>,
                                              key: string)
    requires Hashes(hash) && Inv(hash, s) && Runs(hash, s, steps) && Current(s.inner, names, ids)
    requires AllSpare(hash, s, steps, names, ids, key)
    ensures Current(Run(hash, s, steps).inner, names, ids)
    ensures forall now :: CacheStore.Get(Run(hash, s, steps).inner, now, ItemKey(hash, ids, key))
                          == CacheStore.Get(s.inner, now, ItemKey(hash, ids, key))
    decreases |steps|
  {
    if steps != [] {
      var t := Next(hash, s, steps[0]);
      NextKeeps(hash, s, steps[0]);
      SparedStep(hash, s, steps[0], names, ids, key);
      OthersStayReadable(hash, t, steps[1..], names, ids, key);
      forall now
        ensures CacheStore.Get(t.inner, now, ItemKey(hash, ids, key))
                == CacheStore.Get(s.inner, now, ItemKey(hash, ids, key))
      {}
    }
  }

  // ------------------------------------------------------------------ what is written can be read

  function Turns(steps: seq<Step>, call: CallId): nat {
    if steps == [] then 0
    else Turns(steps[1..], call) + if steps[0].Resolve? && steps[0].call == call then 1 else 0
  }

  /** One turn settles the next id, as it was read or else as it was drawn, and no step of others settles any. */
  lemma OneTurn(hash: string -> string, s: State, step: Step, call: CallId)
    requires Enabled(s, step) && call in s.calls
    ensures var c, d := s.calls[call], Next(hash, s, step).calls[call];
            && d.names == c.names && d.found == c.found
            && if step.Resolve? && step.call == call then
                 && |d.ids| == |c.ids| + 1 && d.ids[..|c.ids|] == c.ids
                 && (c.found[|c.ids|] == Some(d.ids[|c.ids|])
                     || (c.found[|c.ids|].None? && d.ids[|c.ids|] == step.id
                         && IdAt(Next(hash, s, step).inner, c.names[|c.ids|]) == Some(step.id)))
               else d.ids == c.ids
  {}

  /** A call is ready after one turn for each of its tags, whatever others do in between. */
  lemma {:induction false} TurnsResolve(hash: string -> string, s: State, steps: seq<Step>, call: CallId)
    requires Runs(hash, s, steps) && call in s.calls && |s.calls[call].ids| <= |s.calls[call].names|
    ensures var end := Run(hash, s, steps);
            && call in end.calls && end.calls[call].names == s.calls[call].names
            && |end.calls[call].ids| == |s.calls[call].ids| + Turns(steps, call) <= |s.calls[call].names|
            && (Ready(end, call) <==> |s.calls[call].ids| + Turns(steps, call) == |s.calls[call].names|)
    decreases |steps|
  {
    if steps != [] {
      OneTurn(hash, s, steps[0], call);
      TurnsResolve(hash, Next(hash, s, steps[0]), steps[1..], call);
    }
  }

  /** A call that is opened is ready, under its own tags, exactly once it had a turn for each of them. */
  lemma OpenedCallGetsReady(hash: string -> string, s: State, call: CallId, names: seq<Name>, steps: seq<Step>)
    requires call !in s.calls && Runs(hash, Next(hash, s, Open(call, names)), steps)
    ensures var end := Run(hash, Next(hash, s, Open(call, names)), steps);
            && call in end.calls && end.calls[call].names == names && Turns(steps, call) <= |names|
            && (Ready(end, call) <==> Turns(steps, call) == |names|)
  {
    TurnsResolve(hash, Next(hash, s, Open(call, names)), steps, call);
  }

  /** While the tags keep their ids, whoever has opened this set has read just those. */
  ghost predicate ReadsCurrent(s: State, call: CallId, names: seq<Name>, ids: seq<string>) {
    call in s.calls && s.calls[call].names == names ==>
      && |s.calls[call].found| == |ids| == |names| && |s.calls[call].ids| <= |ids|
      && (forall i :: 0 <= i < |ids| ==> s.calls[call].found[i] == Some(ids[i]))
      && (forall i :: 0 <= i < |s.calls[call].ids| ==> s.calls[call].ids[i] == ids[i])
  }

  lemma StepReadsCurrent(hash: string -> string, s: State, step: Step, call: CallId, names: seq<Name>, ids: seq<string>)
    requires Enabled(s, step) && Current(s.inner, names, ids) && ReadsCurrent(s, call, names, ids)
    ensures ReadsCurrent(Next(hash, s, step), call, names, ids)
  {
    if call in s.calls {
      OneTurn(hash, s, step, call);
    } else if step.Open? && step.call == call && step.names == names {
      forall i | 0 <= i < |names| ensures Read(s.inner, names)[i] == Some(ids[i]) {
        assert IdAt(s.inner, names[i]) == Some(ids[i]);
      }
    }
  }

  lemma {:induction false} RunReadsCurrent(hash: string -> string, s: State, steps: seq<Step>, call: CallId,
                                           names: seq<Name>, ids: seq<string>, key: string)
    requires Hashes(hash) && Inv(hash, s) && Runs(hash, s, steps) && Current(s.inner, names, ids)
    requires AllSpare(hash, s, steps, names, ids, key) && ReadsCurrent(s, call, names, ids)
    ensures ReadsCurrent(Run(hash, s, steps), call, names, ids)
    decreases |steps|
  {
    if steps != [] {
      NextKeeps(hash, s, steps[0]);
      StepReadsCurrent(hash, s, steps[0], call, names, ids);
      SparedStep(hash, s, steps[0], names, ids, key);
      RunReadsCurrent(hash, Next(hash, s, steps[0]), steps[1..], call, names, ids, key);
    }
  }

  /** Nothing to expire was asked for, or it is too far away to be kept, or it is still to come. */
  predicate Lasts(now: nat, seconds: int, clock: nat) {
    seconds <= 0 || now / 1000 + seconds >= CacheStore.FOREVER || clock / 1000 < now / 1000 + seconds
  }

  /**
   * A value written under tags that keep their ids is what every later call under the same
   * tags finds under its key until it expires, whatever others write, drop and flush.
   */
  lemma WrittenIsReadBack(hash: string -> string, s: State, writer: CallId, key: string, value: nat, seconds: int,
                          now: nat, steps: seq<Step>, later: CallId, clock: nat)
    requires Hashes(hash) && Inv(hash, s) && Ready(s, writer) && later !in s.calls
    requires Current(s.inner, s.calls[writer].names, s.calls[writer].ids)
    requires Runs(hash, Next(hash, s, Write(writer, key, value, seconds, now)), steps)
    requires AllSpare(hash, Next(hash, s, Write(writer, key, value, seconds, now)), steps, s.calls[writer].names,
                      s.calls[writer].ids, key)
    requires Ready(Run(hash, Next(hash, s, Write(writer, key, value, seconds, now)), steps), later)
    requires Run(hash, Next(hash, s, Write(writer, key, value, seconds, now)), steps).calls[later].names
          == s.calls[writer].names
    ensures var end := Run(hash, Next(hash, s, Write(writer, key, value, seconds, now)), steps);
            CacheStore.Get(end.inner, clock, ItemKey(hash, end.calls[later].ids, key))
            == if Lasts(now, seconds, clock) then Some(Data(value)) else None
  {
    var c := s.calls[writer];
    var t := Next(hash, s, Write(writer, key, value, seconds, now));
    NextKeeps(hash, s, Write(writer, key, value, seconds, now));
    WritesItsOwn(hash, s, writer, key, value, seconds, now);
    RunReadsCurrent(hash, t, steps, later, c.names, c.ids, key);
    OthersStayReadable(hash, t, steps, c.names, c.ids, key);
    assert Run(hash, t, steps).calls[later].ids == c.ids;
  }

  lemma WritesItsOwn(hash: string -> string, s: State, writer: CallId, key: string, value: nat, seconds: int, now: nat)
    requires Hashes(hash) && Ready(s, writer) && Current(s.inner, s.calls[writer].names, s.calls[writer].ids)
    ensures Current(Next(hash, s, Write(writer, key, value, seconds, now)).inner, s.calls[writer].names,
                    s.calls[writer].ids)
  {
    var c := s.calls[writer];
    forall i | 0 <= i < |c.names|
      ensures IdAt(Next(hash, s, Write(writer, key, value, seconds, now)).inner, c.names[i]) == Some(c.ids[i])
    {
      ItemKeyIsNoTagKey(hash, c.ids, key, c.names[i]);
    }
  }

  /** Once dropped or evicted, an entry is found by nobody. */
  lemma DroppedIsGone(hash: string -> string, s: State, call: CallId, key: string, at: string, clock: nat)
    ensures CacheStore.Get(Next(hash, s, Evict(at)).inner, clock, at).None?
    ensures Ready(s, call) ==>
              CacheStore.Get(Next(hash, s, Drop(call, key)).inner, clock, ItemKey(hash, s.calls[call].ids, key)).None?
  {}
}
