/** The item store of the memcached server: shards of items by the hash of the key. */
module MemcacheServer {
  import opened MemcacheItem

  const SHARDS := 4096

  /** The constructor names are the update policies of an item. */
  datatype Policy = Invalid | Set | Add | Replace | Append | Prepend | Cas

  datatype Entry = Entry(flags: nat, value: string, cas: nat)

  // ---------- the store as one map ----------

  /** The map and the last cas value given out. */
  datatype Store = Store(entries: map<string, Entry>, counter: nat)

  const EMPTY_STORE := Store(map[], 0)

  predicate Accepts(st: Store, key: string, e: Entry, policy: Policy) {
    match policy
    case Invalid => false
    case Set => true
    case Add => key !in st.entries
    case Cas => key in st.entries && st.entries[key].cas == e.cas
    case _ => key in st.entries
  }

  /** Two values, each of which ends in CRLF, one after the other. */
  function JoinedValue(was: string, more: string, policy: Policy): (s: string)
    requires |was| >= 2 && |more| >= 2
    ensures |s| == |was| + |more| - 2
    ensures EndsWithCRLF(was) && EndsWithCRLF(more) ==> EndsWithCRLF(s)
  {
    if policy == Append then was[..|was| - 2] + more else more[..|more| - 2] + was
  }

  /** What a key gets: append and prepend join the values and keep the old flags. */
  function Joined(st: Store, key: string, e: Entry, policy: Policy): Entry
    requires Accepts(st, key, e, policy) && WellTerminated(st) && |e.value| >= 2
  {
    if policy == Append || policy == Prepend then
      var was := st.entries[key];
      was.(value := JoinedValue(was.value, e.value, policy))
    else e
  }

  ghost predicate Good(st: Store) {
    && (forall k <- st.entries :: EndsWithCRLF(st.entries[k].value) && 0 < st.entries[k].cas <= st.counter)
    && (forall k <- st.entries, o <- st.entries :: k != o ==> st.entries[k].cas != st.entries[o].cas)
  }

  predicate WellTerminated(st: Store) { forall k <- st.entries :: |st.entries[k].value| >= 2 }

  /** An accepted update gives the key the joined entry with the next cas value; any other changes nothing. */
  function Updated(st: Store, key: string, e: Entry, policy: Policy): Store
    requires WellTerminated(st) && |e.value| >= 2
  {
    if Accepts(st, key, e, policy) then
      Store(st.entries[key := Joined(st, key, e, policy).(cas := st.counter + 1)], st.counter + 1)
    else st
  }

  function Deleted(st: Store, key: string): Store { st.(entries := st.entries - {key}) }

  datatype Change = Update(key: string, entry: Entry, policy: Policy) | Delete(key: string)

  predicate IsChange(c: Change) { c.Update? ==> EndsWithCRLF(c.entry.value) }

  function Changed(st: Store, c: Change): Store
    requires WellTerminated(st) && IsChange(c)
  {
    match c
    case Update(key, e, policy) => Updated(st, key, e, policy)
    case Delete(key) => Deleted(st, key)
  }

  lemma GoodIs(st: Store)
    requires Good(st)
    ensures WellTerminated(st) && forall k <- st.entries :: EndsWithCRLF(st.entries[k].value)
  {
  }

  lemma JoinedTerminated(st: Store, key: string, e: Entry, policy: Policy)
    requires Good(st) && EndsWithCRLF(e.value) && Accepts(st, key, e, policy)
    ensures WellTerminated(st) && EndsWithCRLF(Joined(st, key, e, policy).value)
  {
  }

  /** A change keeps the store good, and gives no cas value that was given before. */
  lemma ChangeKeeps(st: Store, c: Change)
    requires Good(st) && IsChange(c)
    ensures WellTerminated(st) && Good(Changed(st, c)) && st.counter <= Changed(st, c).counter
    ensures
      var now := Changed(st, c);
      forall k <- now.entries ::
        ((k in st.entries && now.entries[k] == st.entries[k]) || now.entries[k].cas == now.counter > st.counter)
  {
    GoodIs(st);
    if c.Update? && Accepts(st, c.key, c.entry, c.policy) {
      JoinedTerminated(st, c.key, c.entry, c.policy);
    }
  }

  ghost function ChangedAll(st: Store, cs: seq<Change>): Store
    requires Good(st) && forall c <- cs :: IsChange(c)
    decreases |cs|
  {
    if cs == [] then st
    else
      ChangeKeeps(st, cs[0]);
      ChangedAll(Changed(st, cs[0]), cs[1..])
  }

  /** In any order of updates and deletions, by whatever sessions, every value stays terminated and
      the cas values stay distinct and below the counter. */
  lemma {:induction false} ChangesKeep(st: Store, cs: seq<Change>)
    requires Good(st) && forall c <- cs :: IsChange(c)
    ensures Good(ChangedAll(st, cs)) && st.counter <= ChangedAll(st, cs).counter
    decreases |cs|
  {
    if cs != [] {
      ChangeKeeps(st, cs[0]);
      ChangesKeep(Changed(st, cs[0]), cs[1..]);
    }
  }

  /** A cas value identifies one version of one key: an update that names it is accepted exactly
      while that version is the current one. */
  lemma {:induction false} CasDetectsChange(st: Store, key: string, cs: seq<Change>, e: Entry)
    requires Good(st) && key in st.entries && (forall c <- cs :: IsChange(c)) && e.cas == st.entries[key].cas
    ensures
      var now := ChangedAll(st, cs);
      Accepts(now, key, e, Cas) <==> key in now.entries && now.entries[key] == st.entries[key]
    decreases |cs|
  {
    VersionsFresh(st, key, cs);
  }

  /** What a key has now is what it had, or was given a cas value above the counter of then. */
  lemma {:induction false} VersionsFresh(st: Store, key: string, cs: seq<Change>)
    requires Good(st) && forall c <- cs :: IsChange(c)
    ensures
      var now := ChangedAll(st, cs);
      key in now.entries ==>
        now.entries[key].cas > st.counter || (key in st.entries && now.entries[key] == st.entries[key])
    decreases |cs|
  {
    if cs != [] {
      ChangeKeeps(st, cs[0]);
      VersionsFresh(Changed(st, cs[0]), key, cs[1..]);
    }
  }

  // ---------- what the policies mean ----------

  /** Whether an update is to be accepted: set always, add for a new key, replace, append and prepend for a key that is
      there, cas for its current version. */
  predicate Welcome(st: Store, key: string, e: Entry, policy: Policy) {
    || policy == Set || (policy == Add && key !in st.entries)
    || ((policy == Replace || policy == Append || policy == Prepend) && key in st.entries)
    || (policy == Cas && key in st.entries && st.entries[key].cas == e.cas)
  }

  /** A welcome update gives its key a new version, numbered one above the last; it puts flags and value in place but
      for append and prepend, and touches no other key. Any other update changes nothing. */
  lemma UpdateMeans(st: Store, key: string, e: Entry, policy: Policy)
    requires WellTerminated(st) && |e.value| >= 2
    ensures
      var now := Updated(st, key, e, policy);
      if Welcome(st, key, e, policy) then
        && now.counter == st.counter + 1 && now.entries.Keys == st.entries.Keys + {key}
        && now.entries[key].cas == st.counter + 1
        && (forall k <- st.entries :: k != key ==> now.entries[k] == st.entries[k])
        && (policy != Append && policy != Prepend ==>
              now.entries[key].value == e.value && now.entries[key].flags == e.flags)
      else now == st
  {
  }

  /** A deletion takes away its key and nothing else. */
  lemma DeleteMeans(st: Store, key: string)
    ensures
      var now := Deleted(st, key);
      && now.counter == st.counter && now.entries.Keys == st.entries.Keys - {key}
      && forall k <- now.entries :: now.entries[k] == st.entries[k]
  {
  }

  /** A value without the CRLF that ends it. */
  function Body(value: string): string
    requires |value| >= 2
  {
    value[..|value| - 2]
  }

  /** What a change prepends to the value of a key, and what it appends. */
  function Front(c: Change, key: string): string
    requires IsChange(c)
  {
    if c.Update? && c.key == key && c.policy == Prepend then Body(c.entry.value) else ""
  }

  function Back(c: Change, key: string): string
    requires IsChange(c)
  {
    if c.Update? && c.key == key && c.policy == Append then Body(c.entry.value) else ""
  }

  /** What a run prepends, the last first, and what it appends. */
  function PutBefore(cs: seq<Change>, key: string): string
    requires forall c <- cs :: IsChange(c)
  {
    if cs == [] then "" else PutBefore(cs[1..], key) + Front(cs[0], key)
  }

  function PutBehind(cs: seq<Change>, key: string): string
    requires forall c <- cs :: IsChange(c)
  {
    if cs == [] then "" else Back(cs[0], key) + PutBehind(cs[1..], key)
  }

  /** The change leaves the key alone, or appends to its value or prepends to it. */
  predicate OnlyJoins(c: Change, key: string) {
    c.key != key || (c.Update? && (c.policy == Append || c.policy == Prepend))
  }

  lemma JoinStep(st: Store, c: Change, key: string)
    requires Good(st) && IsChange(c) && OnlyJoins(c, key) && key in st.entries
    ensures WellTerminated(st) && key in Changed(st, c).entries
    ensures |st.entries[key].value| >= 2 && |Changed(st, c).entries[key].value| >= 2
    ensures
      var now := Changed(st, c).entries[key];
      && now.flags == st.entries[key].flags
      && Body(now.value) == Front(c, key) + Body(st.entries[key].value) + Back(c, key)
  {
    GoodIs(st);
    var was := st.entries[key];
    Padded(Body(was.value));
    if c.key == key {
      JoinedBodies(was.value, c.entry.value);
      JoinedEntry(st, c);
      hide Changed, JoinedValue, Body, Good;
      Padded(Body(c.entry.value) + Body(was.value));
      Padded(Body(was.value) + Body(c.entry.value));
    } else {
      OtherKey(st, c, key);
      hide Changed, Body, Good;
    }
  }

  lemma JoinedEntry(st: Store, c: Change)
    requires Good(st) && IsChange(c) && c.Update? && (c.policy == Append || c.policy == Prepend)
    requires c.key in st.entries
    ensures WellTerminated(st) && c.key in Changed(st, c).entries && |st.entries[c.key].value| >= 2
    ensures
      var (was, now) := (st.entries[c.key], Changed(st, c).entries[c.key]);
      now.flags == was.flags && now.value == JoinedValue(was.value, c.entry.value, c.policy)
  {
    GoodIs(st);
    hide JoinedValue;
  }

  lemma OtherKey(st: Store, c: Change, key: string)
    requires WellTerminated(st) && IsChange(c) && c.key != key && key in st.entries
    ensures key in Changed(st, c).entries && Changed(st, c).entries[key] == st.entries[key]
  {
    hide JoinedValue;
  }

  lemma Padded(s: string)
    ensures s + "" == s && "" + s == s && "" + s + "" == s
  {
  }

  lemma JoinedBodies(was: string, more: string)
    requires EndsWithCRLF(was) && EndsWithCRLF(more)
    ensures Body(JoinedValue(was, more, Append)) == Body(was) + Body(more)
    ensures Body(JoinedValue(was, more, Prepend)) == Body(more) + Body(was)
  {
    assert was[..|was| - 2] + more == Body(was) + Body(more) + more[|more| - 2..];
    assert more[..|more| - 2] + was == Body(more) + Body(was) + was[|was| - 2..];
  }

  /** After any appends and prepends to a key, and any changes to others: its value is what was prepended, the last
      first, then the original value, then what was appended in order. The flags are the old ones. */
  lemma {:induction false} JoinsInOrder(st: Store, cs: seq<Change>, key: string)
    requires Good(st) && (forall c <- cs :: IsChange(c) && OnlyJoins(c, key)) && key in st.entries
    ensures |st.entries[key].value| >= 2
    ensures
      var now := ChangedAll(st, cs);
      && key in now.entries && now.entries[key].flags == st.entries[key].flags && EndsWithCRLF(now.entries[key].value)
      && Body(now.entries[key].value) ==
           PutBefore(cs, key) + Body(st.entries[key].value) + PutBehind(cs, key)
    decreases |cs|
  {
    GoodIs(st);
    var was := Body(st.entries[key].value);
    if cs == [] {
      Padded(was);
    } else {
      var c, rest := cs[0], cs[1..];
      JoinStep(st, c, key);
      ChangeKeeps(st, c);
      JoinsInOrder(Changed(st, c), rest, key);
      hide Changed, Body, Good, Front, Back;
      Nested(PutBefore(rest, key), Front(c, key), was, Back(c, key), PutBehind(rest, key));
    }
  }

  lemma Nested(a: string, b: string, c: string, d: string, e: string)
    ensures a + (b + c + d) + e == (a + b) + c + (d + e)
  {
  }

  // ---------- the shards ----------

  /** An item in a shard. It does not change once it is there. */
  datatype Stored = Stored(key: string, entry: Entry)

  /** The shards hold just the entries of the map, each in the shard of its key's hash. */
  ghost predicate Sharded(shards: seq<set<Stored>>, hashOf: string -> nat, entries: map<string, Entry>) {
    && |shards| == SHARDS
    && (forall s, it :: 0 <= s < SHARDS && it in shards[s] ==>
          it.key in entries && entries[it.key] == it.entry && s == hashOf(it.key) % SHARDS)
    && (forall k <- entries :: Stored(k, entries[k]) in shards[hashOf(k) % SHARDS])
  }

  lemma InsertKeeps(shards: seq<set<Stored>>, hashOf: string -> nat, entries: map<string, Entry>, key: string, e: Entry)
    requires Sharded(shards, hashOf, entries) && key !in entries
    ensures
      var s := hashOf(key) % SHARDS;
      Sharded(shards[s := shards[s] + {Stored(key, e)}], hashOf, entries[key := e])
  {
  }

  lemma EraseKeeps(shards: seq<set<Stored>>, hashOf: string -> nat, entries: map<string, Entry>, key: string)
    requires Sharded(shards, hashOf, entries) && key in entries
    ensures
      var s := hashOf(key) % SHARDS;
      Sharded(shards[s := shards[s] - {Stored(key, entries[key])}], hashOf, entries - {key})
  {
  }

  /** What the policies other than append and prepend come to. */
  lemma UpdatedIs(st: Store, key: string, e: Entry, policy: Policy)
    requires WellTerminated(st) && |e.value| >= 2
    ensures Updated(st, key, e, policy) ==
      if !Accepts(st, key, e, policy) then st
      else if policy == Append || policy == Prepend then Updated(st, key, e, policy)
      else Store(st.entries[key := e.(cas := st.counter + 1)], st.counter + 1)
  {
  }

  lemma ReplaceGood(st: Store, key: string, e: Entry)
    requires Good(st) && EndsWithCRLF(e.value) && e.cas == st.counter + 1
    ensures Good(Store(st.entries[key := e], st.counter + 1))
  {
  }

  class MemcacheServer {
    const hashOf: string -> nat
    const shards: array<set<Stored>>
    var counter: nat
    ghost var store: Store

    /** given is how many cas values have been given out that no entry has yet. */
    ghost predicate ValidUpTo(given: nat)
      reads this, shards
    {
      shards.Length == SHARDS && Sharded(shards[..], hashOf, store.entries)
      && Good(store) && counter == store.counter + given
    }

    ghost predicate Valid()
      reads this, shards
    {
      ValidUpTo(0)
    }

    constructor (hashOf: string -> nat)
      ensures Valid() && fresh(shards) && store == EMPTY_STORE && this.hashOf == hashOf
    {
      this.hashOf := hashOf;
      shards := new set<Stored>[SHARDS](_ => {});
      counter := 0;
      store := EMPTY_STORE;
    }

    method IncrementAndGet() returns (c: nat)
      requires Valid()
      modifies this`counter
      ensures ValidUpTo(1) && c == counter == old(counter) + 1
    {
      counter := counter + 1;
      c := counter;
    }

    /** The item of a key in its shard, if there is one. */
    method Find(key: string, hash: nat) returns (exists_: bool, it: Stored)
      requires Valid() && hash == hashOf(key)
      ensures exists_ == (key in store.entries)
      ensures exists_ ==> it == Stored(key, store.entries[key]) && it in shards[hash % SHARDS]
    {
      var items := shards[hash % SHARDS];
      assert items == shards[..][hash % SHARDS];
      exists_ := exists i <- items :: i.key == key;
      it := Stored(key, Entry(0, "", 0));
      if exists_ {
        it :| it in items && it.key == key;
      }
    }

    /** erase(it), as far as the map is concerned. */
    method Erase(it: Stored, s: nat)
      requires Sharded(shards[..], hashOf, store.entries) && s < shards.Length && it in shards[s]
      modifies this`store, shards
      ensures store == Deleted(old(store), it.key) && Sharded(shards[..], hashOf, store.entries)
    {
      EraseKeeps(shards[..], hashOf, store.entries, it.key);
      shards[s] := shards[s] - {it};
      store := Deleted(store, it.key);
    }

    method Insert(key: string, hash: nat, e: Entry)
      requires Sharded(shards[..], hashOf, store.entries) && key !in store.entries && hash == hashOf(key)
      modifies this`store, shards
      ensures store == old(store).(entries := old(store).entries[key := e])
      ensures Sharded(shards[..], hashOf, store.entries)
    {
      InsertKeeps(shards[..], hashOf, store.entries, key, e);
      shards[hash % SHARDS] := shards[hash % SHARDS] + {Stored(key, e)};
      store := store.(entries := store.entries[key := e]);
    }

    function EntryOf(item: Item): Entry
      requires item.Valid()
      reads item, item.data
    {
      Entry(item.flags, item.Received(), item.cas)
    }

    /** The new item in place of what its key had. */
    method PutInPlace(item: Item, exists_: bool, it: Stored)
      requires ValidUpTo(1) && item.Valid() && item.Complete() && item.hashOf == hashOf && item.cas == counter
      requires exists_ == (item.Key() in store.entries)
      requires exists_ ==> it.key == item.Key() && it in shards[item.hash % SHARDS]
      modifies this`store, shards
      ensures Valid()
      ensures store == Store(old(store).entries[item.Key() := EntryOf(item)], counter)
    {
      hide Sharded, Good;
      ReplaceGood(store, item.Key(), EntryOf(item));
      if exists_ {
        Erase(it, item.hash % SHARDS);
      }
      Insert(item.Key(), item.hash, EntryOf(item));
      store := store.(counter := counter);
      assert store.entries == old(store).entries[item.Key() := EntryOf(item)];
    }

    /** A new item with the value of the old one and that of the given one, one after the other. */
    method Join(item: Item, it: Stored, policy: Policy, cas: nat) returns (newItem: Item)
      requires item.Valid() && item.Complete() && EndsWithCRLF(it.entry.value) && it.key == item.Key()
      requires policy == Append || policy == Prepend
      ensures newItem.Valid() && newItem.Complete() && fresh(newItem) && fresh(newItem.data)
      ensures newItem.Key() == item.Key() && newItem.hashOf == item.hashOf
      ensures EntryOf(newItem) == Entry(it.entry.flags, JoinedValue(it.entry.value, item.Received(), policy), cas)
    {
      var value, oldValue := item.Received(), it.entry.value;
      var first, second := oldValue, value;
      if policy == Prepend {
        first, second := value, oldValue;
      }
      newItem := new Item(item.hashOf, item.Key(), it.entry.flags, |value| + |oldValue| - 2, cas);
      newItem.Append(first[..|first| - 2]);
      newItem.Append(second);
      assert "" + first[..|first| - 2] + second == JoinedValue(oldValue, value, policy);
    }

    /** Exactly what the policy says is done to the map; the item is not to be used afterwards. */
    method StoreItem(item: Item, policy: Policy) returns (stored: bool, exists_: bool)
      requires Valid() && item.Valid() && item.Complete() && item.hashOf == hashOf
      modifies this, shards, item`cas
      ensures Valid() && exists_ == (item.Key() in old(store).entries)
      ensures stored == (policy == Invalid || Accepts(old(store), item.Key(), old(EntryOf(item)), policy))
      ensures WellTerminated(old(store))
      ensures store == Updated(old(store), item.Key(), old(EntryOf(item)), policy)
    {
      hide Sharded, Good, Updated, EndsWithCRLF;
      GoodIs(store);
      UpdatedIs(store, item.Key(), EntryOf(item), policy);
      var it;
      exists_, it := Find(item.Key(), item.hash);
      stored := true;
      match policy
      case Set =>
        Place(item, exists_, it);
      case Add =>
        if exists_ { stored := false; } else { Place(item, exists_, it); }
      case Replace =>
        if exists_ { Place(item, exists_, it); } else { stored := false; }
      case Append =>
        if exists_ { JoinAndPlace(item, it, policy); } else { stored := false; }
      case Prepend =>
        if exists_ { JoinAndPlace(item, it, policy); } else { stored := false; }
      case Cas =>
        if exists_ && it.entry.cas == item.cas { Place(item, exists_, it); } else { stored := false; }
      case Invalid =>
    }

    /** The item under a new cas value. */
    method Place(item: Item, exists_: bool, it: Stored)
      requires Valid() && item.Valid() && item.Complete() && item.hashOf == hashOf
      requires exists_ == (item.Key() in store.entries)
      requires exists_ ==> it.key == item.Key() && it in shards[item.hash % SHARDS]
      modifies this, shards, item`cas
      ensures Valid()
      ensures store ==
        Store(old(store).entries[item.Key() := old(EntryOf(item)).(cas := counter)], old(store).counter + 1)
    {
      hide Sharded, Good;
      var cas := IncrementAndGet();
      item.SetCas(cas);
      PutInPlace(item, exists_, it);
    }

    method JoinAndPlace(item: Item, it: Stored, policy: Policy)
      requires Valid() && item.Valid() && item.Complete() && item.hashOf == hashOf
      requires item.Key() in store.entries && it == Stored(item.Key(), store.entries[item.Key()])
      requires it in shards[item.hash % SHARDS]
      requires policy == Append || policy == Prepend
      modifies this, shards
      ensures Valid() && WellTerminated(old(store)) && |item.Received()| >= 2
      ensures store == Updated(old(store), item.Key(), old(EntryOf(item)), policy)
    {
      hide Sharded, Good, JoinedValue, EndsWithCRLF;
      GoodIs(store);
      var cas := IncrementAndGet();
      var newItem := Join(item, it, policy, cas);
      PutInPlace(newItem, true, it);
    }

    /** The entry of a key, None when there is none. */
    method GetItem(needle: Item) returns (found: bool, it: Stored)
      requires Valid() && needle.Valid() && needle.hashOf == hashOf
      ensures found == (needle.Key() in store.entries)
      ensures found ==> it == Stored(needle.Key(), store.entries[needle.Key()])
    {
      found, it := Find(needle.Key(), needle.hash);
    }

    method DeleteItem(needle: Item) returns (deleted: bool)
      requires Valid() && needle.Valid() && needle.hashOf == hashOf
      modifies this`store, shards
      ensures Valid() && deleted == (needle.Key() in old(store).entries)
      ensures store == Deleted(old(store), needle.Key())
    {
      hide Sharded;
      var it;
      deleted, it := Find(needle.Key(), needle.hash);
      ChangeKeeps(store, Delete(needle.Key()));
      if deleted {
        Erase(it, needle.hash % SHARDS);
      } else {
        assert store.entries - {needle.Key()} == store.entries;
      }
    }
  }
}
