/**
 * `AppNotificationCenter`: a process-wide registry that sits in front of the
 * operating system's notification center. It keeps one registration
 * (`AppNotification`) per notification name, each with a list of observers in
 * which no two entries share an (observer, selector) key, and an append-only
 * log of every notification posted. The calls it forwards to the system
 * center are recorded in a log of their own, so that what the system center
 * ends up delivering can be stated.
 */
module NotificationRegistry {
  import opened Wrappers

  /** Identity of the hashable object that observes. */
  type ObserverRef = nat
  /** An Objective-C selector, by name. */
  type Selector = string
  /** Identity of an object sent with a notification or used as a filter. */
  type ObjectRef = nat
  /** The raw value of a notification name. */
  type NotificationName = string
  /** A `userInfo` dictionary; its keys and values are opaque here. */
  type UserInfo = map<string, string>
  /** What two `AppNotificationObserver`s are compared by. */
  type ObserverKey = (ObserverRef, Selector)

  /** Raw value of `AppPostNotification.notDefined`, the one declared name. */
  const NotDefined: NotificationName := "kDefineNotificationsHere"

  /** `AppNotificationObserver`: equal to another exactly when observer and selector agree. */
  datatype Observer = Observer(observer: ObserverRef, selector: Selector, filter: Option<ObjectRef>) {
    function Key(): ObserverKey { (observer, selector) }
  }

  /** `AppPostNotificationItem`, one entry of the log of posted notifications. */
  datatype PostItem = PostItem(notification: NotificationName, sender: Option<ObjectRef>, userInfo: Option<UserInfo>)

  /** A call forwarded to the system notification center. */
  datatype SystemCall =
    | SystemPost(name: NotificationName, sender: Option<ObjectRef>, userInfo: Option<UserInfo>)
    | SystemAddObserver(observer: ObserverRef, selector: Selector, name: NotificationName, filter: Option<ObjectRef>)
    | SystemRemoveObserver(observer: ObserverRef, name: NotificationName, filter: Option<ObjectRef>)
    | SystemRemoveEverywhere(observer: ObserverRef)

  // ---------------------------------------------------------------------
  // Observer lists
  // ---------------------------------------------------------------------

  /** `observers.contains(o)`: some entry has the key. */
  predicate HasKey(obs: seq<Observer>, key: ObserverKey) {
    exists i :: 0 <= i < |obs| && obs[i].Key() == key
  }

  /** No two entries of an observer list share a key. */
  predicate KeysDistinct(obs: seq<Observer>) {
    forall i, j :: 0 <= i < j < |obs| ==> obs[i].Key() != obs[j].Key()
  }

  /** Position of the first entry with the key, or -1 when there is none. */
  function IndexOfKey(obs: seq<Observer>, key: ObserverKey): (r: int)
    ensures -1 <= r < |obs|
    ensures 0 <= r ==> obs[r].Key() == key
    ensures 0 <= r ==> forall k :: 0 <= k < r ==> obs[k].Key() != key
    ensures r < 0 <==> !HasKey(obs, key)
  {
    if obs == [] then -1
    else if obs[0].Key() == key then 0
    else
      var r := IndexOfKey(obs[1..], key);
      if r < 0 then
        assert forall k :: 1 <= k < |obs| ==> obs[k] == obs[1..][k - 1];
        -1
      else r + 1
  }

  /** The list `addObserver` leaves behind. */
  function WithObserver(obs: seq<Observer>, o: Observer): (r: seq<Observer>)
    ensures HasKey(r, o.Key())
    ensures |obs| <= |r| <= |obs| + 1 && r[..|obs|] == obs
    ensures HasKey(obs, o.Key()) ==> r == obs
    ensures !HasKey(obs, o.Key()) ==> r == obs + [o]
    ensures KeysDistinct(obs) ==> KeysDistinct(r)
  {
    if HasKey(obs, o.Key()) then obs
    else
      assert (obs + [o])[|obs|] == o;
      obs + [o]
  }

  /** The list `removeObserver` leaves behind: the first entry with the key is cut out. */
  function WithoutKey(obs: seq<Observer>, key: ObserverKey): (r: seq<Observer>)
    ensures !HasKey(obs, key) ==> r == obs
    ensures HasKey(obs, key) ==> |r| == |obs| - 1
  {
    var i := IndexOfKey(obs, key);
    if i < 0 then obs else obs[..i] + obs[i + 1..]
  }

  /** The entries whose key differs from `key`, in their order. */
  function FilterKey(obs: seq<Observer>, key: ObserverKey): (r: seq<Observer>)
    ensures forall x :: x in r <==> x in obs && x.Key() != key
  {
    if obs == [] then []
    else (if obs[0].Key() != key then [obs[0]] else []) + FilterKey(obs[1..], key)
  }

  /** The entries whose key is not the key of any entry of `ks`, in their order. */
  function DropKeys(obs: seq<Observer>, ks: seq<Observer>): (r: seq<Observer>)
    ensures forall x :: x in r <==> x in obs && !HasKey(ks, x.Key())
  {
    if obs == [] then []
    else (if !HasKey(ks, obs[0].Key()) then [obs[0]] else []) + DropKeys(obs[1..], ks)
  }

  /** The entries registered for another observer object, in their order. */
  function WithoutRef(obs: seq<Observer>, ref: ObserverRef): (r: seq<Observer>)
    ensures forall x :: x in r <==> x in obs && x.observer != ref
  {
    if obs == [] then []
    else (if obs[0].observer != ref then [obs[0]] else []) + WithoutRef(obs[1..], ref)
  }

  /** `observers.filter { $0.observer == ref }`. */
  function Matching(obs: seq<Observer>, ref: ObserverRef): (r: seq<Observer>)
    ensures forall x :: x in r <==> x in obs && x.observer == ref
  {
    if obs == [] then []
    else (if obs[0].observer == ref then [obs[0]] else []) + Matching(obs[1..], ref)
  }

  lemma HasKeyIn(obs: seq<Observer>, key: ObserverKey)
    ensures HasKey(obs, key) <==> exists x :: x in obs && x.Key() == key
  {
    if HasKey(obs, key) {
      var i :| 0 <= i < |obs| && obs[i].Key() == key;
      assert obs[i] in obs;
    }
  }

  lemma DistinctCons(a: Observer, s: seq<Observer>)
    ensures KeysDistinct([a] + s) <==> KeysDistinct(s) && !HasKey(s, a.Key())
  {
    var t := [a] + s;
    assert forall k :: 0 <= k < |s| ==> t[k + 1] == s[k];
    if KeysDistinct(t) {
      forall i, j | 0 <= i < j < |s| ensures s[i].Key() != s[j].Key() {
        assert t[i + 1] == s[i] && t[j + 1] == s[j];
      }
      forall i | 0 <= i < |s| ensures s[i].Key() != a.Key() {
        assert t[0] == a && t[i + 1] == s[i];
        assert t[0].Key() != t[i + 1].Key();
      }
    }
  }

  /** A list taken from a duplicate-free list, order kept, is duplicate-free. */
  lemma {:induction false} FilterKeepsDistinct(s: seq<Observer>, r: seq<Observer>)
    requires KeysDistinct(s)
    requires Subsequence(r, s)
    ensures KeysDistinct(r)
    decreases |s|
  {
    if r != [] {
      if s[0] == r[0] {
        SubsequenceTail(r, s);
        assert KeysDistinct(s[1..]) by { DistinctCons(s[0], s[1..]); assert [s[0]] + s[1..] == s; }
        FilterKeepsDistinct(s[1..], r[1..]);
        DistinctCons(s[0], s[1..]);
        assert [s[0]] + s[1..] == s;
        SubsequenceMembers(r[1..], s[1..]);
        HasKeyIn(r[1..], r[0].Key());
        HasKeyIn(s[1..], r[0].Key());
        DistinctCons(r[0], r[1..]);
        assert [r[0]] + r[1..] == r;
      } else {
        assert KeysDistinct(s[1..]) by { DistinctCons(s[0], s[1..]); assert [s[0]] + s[1..] == s; }
        FilterKeepsDistinct(s[1..], r);
      }
    }
  }

  /** `r` is `s` with some entries left out, the rest in their order. */
  predicate Subsequence(r: seq<Observer>, s: seq<Observer>)
    decreases |s|
  {
    if r == [] then true
    else if s == [] then false
    else if s[0] == r[0] then Subsequence(r[1..], s[1..])
    else Subsequence(r, s[1..])
  }

  lemma SubsequenceTail(r: seq<Observer>, s: seq<Observer>)
    requires r != [] && s != [] && s[0] == r[0] && Subsequence(r, s)
    ensures Subsequence(r[1..], s[1..])
  {
  }

  lemma {:induction false} SubsequenceMembers(r: seq<Observer>, s: seq<Observer>)
    requires Subsequence(r, s)
    ensures forall x :: x in r ==> x in s
    decreases |s|
  {
    if r != [] {
      if s[0] == r[0] {
        SubsequenceMembers(r[1..], s[1..]);
        assert r == [r[0]] + r[1..];
        assert s == [s[0]] + s[1..];
      } else {
        SubsequenceMembers(r, s[1..]);
        assert s == [s[0]] + s[1..];
      }
    }
  }

  lemma {:induction false} FilterKeyIsSubsequence(s: seq<Observer>, key: ObserverKey)
    ensures Subsequence(FilterKey(s, key), s)
  {
    if s != [] {
      FilterKeyIsSubsequence(s[1..], key);
      var rest := FilterKey(s[1..], key);
      if s[0].Key() != key {
        assert FilterKey(s, key) == [s[0]] + rest;
        assert ([s[0]] + rest)[1..] == rest;
      } else {
        assert FilterKey(s, key) == rest;
        SubsequenceSkip(rest, s);
      }
    }
  }

  lemma {:induction false} WithoutRefIsSubsequence(s: seq<Observer>, ref: ObserverRef)
    ensures Subsequence(WithoutRef(s, ref), s)
  {
    if s != [] {
      WithoutRefIsSubsequence(s[1..], ref);
      var rest := WithoutRef(s[1..], ref);
      if s[0].observer != ref {
        assert WithoutRef(s, ref) == [s[0]] + rest;
        assert ([s[0]] + rest)[1..] == rest;
      } else {
        assert WithoutRef(s, ref) == rest;
        SubsequenceSkip(rest, s);
      }
    }
  }

  /** A subsequence of the tail is a subsequence of the whole. */
  lemma {:induction false} SubsequenceSkip(r: seq<Observer>, s: seq<Observer>)
    requires s != [] && Subsequence(r, s[1..])
    ensures Subsequence(r, s)
    decreases |s|, |r|
  {
    if r != [] && s[0] == r[0] {
      SubsequenceDrop(r, s[1..]);
    }
  }

  /** Leaving out the first entry of a subsequence gives a subsequence. */
  lemma {:induction false} SubsequenceDrop(r: seq<Observer>, s: seq<Observer>)
    requires r != [] && Subsequence(r, s)
    ensures Subsequence(r[1..], s)
    decreases |s|, |r|
  {
    if s[0] == r[0] {
      if r[1..] != [] {
        SubsequenceSkip(r[1..], s);
      }
    } else {
      SubsequenceDrop(r, s[1..]);
      SubsequenceSkip(r[1..], s);
    }
  }

  /** Removing the first entry with a key from a duplicate-free list removes every entry with it. */
  lemma {:induction false} WithoutKeyIsFilter(s: seq<Observer>, key: ObserverKey)
    requires KeysDistinct(s)
    ensures WithoutKey(s, key) == FilterKey(s, key)
  {
    if s != [] {
      DistinctCons(s[0], s[1..]);
      assert [s[0]] + s[1..] == s;
      if s[0].Key() == key {
        FilterKeyAbsent(s[1..], key);
      } else {
        WithoutKeyIsFilter(s[1..], key);
        var i := IndexOfKey(s[1..], key);
        if 0 <= i {
          assert s[..i + 1] + s[i + 2..] == [s[0]] + (s[1..][..i] + s[1..][i + 1..]);
        }
      }
    }
  }

  lemma {:induction false} FilterKeyAbsent(s: seq<Observer>, key: ObserverKey)
    requires !HasKey(s, key)
    ensures FilterKey(s, key) == s
  {
    if s != [] {
      assert s[0].Key() != key;
      assert !HasKey(s[1..], key) by {
        forall k | 0 <= k < |s[1..]| ensures s[1..][k].Key() != key {
          assert s[1..][k] == s[k + 1];
        }
      }
      FilterKeyAbsent(s[1..], key);
      assert [s[0]] + s[1..] == s;
    }
  }

  lemma HasKeySnoc(ks: seq<Observer>, o: Observer, key: ObserverKey)
    ensures HasKey(ks + [o], key) <==> HasKey(ks, key) || o.Key() == key
  {
    var t := ks + [o];
    assert t[|ks|] == o;
    if HasKey(ks, key) {
      var i :| 0 <= i < |ks| && ks[i].Key() == key;
      assert t[i] == ks[i];
    }
    if HasKey(t, key) {
      var i :| 0 <= i < |t| && t[i].Key() == key;
      if i < |ks| { assert t[i] == ks[i]; }
    }
  }

  /** Filtering one more key out of `DropKeys` is dropping one more key. */
  lemma {:induction false} DropOneMoreKey(s: seq<Observer>, ks: seq<Observer>, o: Observer)
    ensures FilterKey(DropKeys(s, ks), o.Key()) == DropKeys(s, ks + [o])
  {
    if s != [] {
      var a := s[0];
      HasKeySnoc(ks, o, a.Key());
      DropOneMoreKey(s[1..], ks, o);
      var rest := DropKeys(s[1..], ks);
      if !HasKey(ks, a.Key()) {
        assert DropKeys(s, ks) == [a] + rest;
        assert ([a] + rest)[1..] == rest;
      } else {
        assert DropKeys(s, ks) == rest;
      }
    }
  }

  lemma {:induction false} DropNoKeys(s: seq<Observer>)
    ensures DropKeys(s, []) == s
  {
    if s != [] {
      DropNoKeys(s[1..]);
      assert [s[0]] + s[1..] == s;
    }
  }

  /** Dropping the keys of exactly the entries of `ref` is filtering out `ref`. */
  lemma {:induction false} DropKeysOfRef(s: seq<Observer>, ks: seq<Observer>, ref: ObserverRef)
    requires forall x :: x in s ==> (HasKey(ks, x.Key()) <==> x.observer == ref)
    ensures DropKeys(s, ks) == WithoutRef(s, ref)
  {
    if s != [] {
      assert s[0] in s;
      assert forall x :: x in s[1..] ==> x in s;
      DropKeysOfRef(s[1..], ks, ref);
    }
  }

  /** An entry's key is among those of `Matching(s, ref)` exactly when it belongs to `ref`. */
  lemma MatchingKeys(s: seq<Observer>, ref: ObserverRef)
    ensures forall x :: x in s ==> (HasKey(Matching(s, ref), x.Key()) <==> x.observer == ref)
  {
    var m := Matching(s, ref);
    forall x | x in s ensures HasKey(m, x.Key()) <==> x.observer == ref {
      HasKeyIn(m, x.Key());
      if x.observer == ref {
        assert x in m;
      }
    }
  }

  // ---------------------------------------------------------------------
  // The registry as a value: the list of (name, observers) registrations
  // ---------------------------------------------------------------------

  /** One `AppNotification` seen as a value. */
  datatype Entry = Entry(name: NotificationName, observers: seq<Observer>)

  predicate HasName(t: seq<Entry>, name: NotificationName) {
    exists i :: 0 <= i < |t| && t[i].name == name
  }

  predicate NamesDistinct(t: seq<Entry>) {
    forall i, j :: 0 <= i < j < |t| ==> t[i].name != t[j].name
  }

  /** The registry invariant: one registration per name, no repeated key inside one. */
  predicate TableValid(t: seq<Entry>) {
    && NamesDistinct(t)
    && forall i :: 0 <= i < |t| ==> KeysDistinct(t[i].observers)
  }

  /** `_registedObservers.filter { $0.name == name }.first`, as a position, or -1. */
  function IndexOfName(t: seq<Entry>, name: NotificationName): (r: int)
    ensures -1 <= r < |t|
    ensures 0 <= r ==> t[r].name == name
    ensures 0 <= r ==> forall k :: 0 <= k < r ==> t[k].name != name
    ensures r < 0 <==> !HasName(t, name)
  {
    if t == [] then -1
    else if t[0].name == name then 0
    else
      var r := IndexOfName(t[1..], name);
      if r < 0 then
        assert forall k :: 1 <= k < |t| ==> t[k] == t[1..][k - 1];
        -1
      else r + 1
  }

  /** The observers registered under a name, if it has a registration. */
  function Lookup(t: seq<Entry>, name: NotificationName): Option<seq<Observer>> {
    var i := IndexOfName(t, name);
    if i < 0 then None else Some(t[i].observers)
  }

  /** Registry after `observePost(name, o)`. */
  function Observed(t: seq<Entry>, name: NotificationName, o: Observer): seq<Entry> {
    var i := IndexOfName(t, name);
    if i < 0 then t + [Entry(name, [o])]
    else t[i := Entry(name, WithObserver(t[i].observers, o))]
  }

  /** Registry after `removePost(name)` without an observer. */
  function NameRemoved(t: seq<Entry>, name: NotificationName): seq<Entry> {
    var i := IndexOfName(t, name);
    if i < 0 then t else t[..i] + t[i + 1..]
  }

  /** Registry after `removePost(name, observer: o)`. */
  function ObserverRemoved(t: seq<Entry>, name: NotificationName, o: Observer): seq<Entry> {
    var i := IndexOfName(t, name);
    if i < 0 then t
    else
      var rest := WithoutKey(t[i].observers, o.Key());
      if |rest| == 0 then t[..i] + t[i + 1..] else t[i := Entry(name, rest)]
  }

  /** Registry after `removeObservers(for: ref)`. */
  function RemovedEverywhere(t: seq<Entry>, ref: ObserverRef): seq<Entry> {
    seq(|t|, k requires 0 <= k < |t| => Entry(t[k].name, WithoutRef(t[k].observers, ref)))
  }

  lemma LookupAt(t: seq<Entry>, k: int)
    requires NamesDistinct(t) && 0 <= k < |t|
    ensures Lookup(t, t[k].name) == Some(t[k].observers)
  {
    var i := IndexOfName(t, t[k].name);
    assert 0 <= i;
    if i != k {
      assert false;
    }
  }

  /** Two duplicate-free registries with the same registrations, whatever their order, look up alike. */
  lemma SameEntriesSameLookup(t: seq<Entry>, r: seq<Entry>, n: NotificationName)
    requires NamesDistinct(t) && NamesDistinct(r)
    requires forall e :: e in t && e.name == n ==> e in r
    requires forall e :: e in r && e.name == n ==> e in t
    ensures Lookup(r, n) == Lookup(t, n)
  {
    if HasName(t, n) {
      var k := IndexOfName(t, n);
      assert t[k] in t;
      var j :| 0 <= j < |r| && r[j] == t[k];
      LookupAt(t, k);
      LookupAt(r, j);
    } else {
      forall j | 0 <= j < |r| ensures r[j].name != n {
        assert r[j] in r;
      }
    }
  }

  lemma NamesAfterRemoval(t: seq<Entry>, i: int)
    requires NamesDistinct(t) && 0 <= i < |t|
    ensures NamesDistinct(t[..i] + t[i + 1..])
    ensures forall e :: e in t[..i] + t[i + 1..] <==> e in t && e.name != t[i].name
  {
    var r := t[..i] + t[i + 1..];
    assert forall k :: 0 <= k < |r| ==> r[k] == (if k < i then t[k] else t[k + 1]);
    forall e | e in t && e.name != t[i].name ensures e in r {
      var k :| 0 <= k < |t| && t[k] == e;
      if k < i { assert r[k] == e; } else { assert k > i; assert r[k - 1] == e; }
    }
  }

  lemma ObservedValid(t: seq<Entry>, name: NotificationName, o: Observer)
    requires TableValid(t)
    ensures TableValid(Observed(t, name, o))
  {
    var r := Observed(t, name, o);
    if IndexOfName(t, name) < 0 {
      assert forall k :: 0 <= k < |t| ==> r[k] == t[k];
      assert r[|t|] == Entry(name, [o]);
    }
  }

  /**
   * `observePost` keeps the registry invariant, creates a registration only when
   * the name has none, leaves the observer registered under the name, and
   * touches no other name.
   */
  lemma ObservedSpec(t: seq<Entry>, name: NotificationName, o: Observer)
    requires TableValid(t)
    ensures var r := Observed(t, name, o);
      && TableValid(r)
      && Lookup(r, name) == Some(WithObserver(Lookup(t, name).GetOr([]), o))
      && (forall n :: n != name ==> Lookup(r, n) == Lookup(t, n))
      && (HasName(t, name) ==> |r| == |t|)
      && (!HasName(t, name) ==> |r| == |t| + 1 && r[|t|] == Entry(name, [o]))
      && (forall k :: 0 <= k < |t| ==> r[k].name == t[k].name)
  {
    var r := Observed(t, name, o);
    var i := IndexOfName(t, name);
    ObservedValid(t, name, o);
    if i < 0 {
      assert forall k :: 0 <= k < |t| ==> r[k] == t[k];
      assert r[|t|] == Entry(name, [o]);
      LookupAt(r, |t|);
      forall n | n != name ensures Lookup(r, n) == Lookup(t, n) {
        SameEntriesSameLookup(t, r, n);
      }
    } else {
      assert NamesDistinct(r);
      LookupAt(r, i);
      LookupAt(t, i);
      forall n | n != name ensures Lookup(r, n) == Lookup(t, n) {
        forall e | e in t && e.name == n ensures e in r {
          var k :| 0 <= k < |t| && t[k] == e;
          assert r[k] == e;
        }
        SameEntriesSameLookup(t, r, n);
      }
    }
  }

  /**
   * `removePost(name)` without an observer drops the name's registration, keeps
   * the invariant, and keeps every other registration as it was.
   */
  lemma NameRemovedSpec(t: seq<Entry>, name: NotificationName)
    requires TableValid(t)
    ensures var r := NameRemoved(t, name);
      && TableValid(r)
      && Lookup(r, name) == None
      && (forall n :: n != name ==> Lookup(r, n) == Lookup(t, n))
      && (forall e :: e in r <==> e in t && e.name != name)
      && |r| == (if HasName(t, name) then |t| - 1 else |t|)
      && (!HasName(t, name) ==> r == t)
  {
    var r := NameRemoved(t, name);
    var i := IndexOfName(t, name);
    if 0 <= i {
      NamesAfterRemoval(t, i);
      assert forall k :: 0 <= k < |r| ==> r[k] == (if k < i then t[k] else t[k + 1]);
      forall n | n != name ensures Lookup(r, n) == Lookup(t, n) {
        SameEntriesSameLookup(t, r, n);
      }
    } else {
      forall e | e in t ensures e.name != name {
        var k :| 0 <= k < |t| && t[k] == e;
      }
    }
  }

  /**
   * `removePost(name, observer: o)` removes every entry with `o`'s key from the
   * name's registration, drops the registration once it is empty, keeps the
   * invariant and touches no other name.
   */
  lemma ObserverRemovedSpec(t: seq<Entry>, name: NotificationName, o: Observer)
    requires TableValid(t)
    ensures var r := ObserverRemoved(t, name, o);
      && TableValid(r)
      && Lookup(r, name) == (match Lookup(t, name)
                              case None => None
                              case Some(obs) =>
                                var rest := FilterKey(obs, o.Key());
                                if rest == [] then None else Some(rest))
      && (forall n :: n != name ==> Lookup(r, n) == Lookup(t, n))
      && (!HasName(t, name) ==> r == t)
  {
    var r := ObserverRemoved(t, name, o);
    var i := IndexOfName(t, name);
    if 0 <= i {
      var obs := t[i].observers;
      LookupAt(t, i);
      WithoutKeyIsFilter(obs, o.Key());
      var rest := WithoutKey(obs, o.Key());
      if |rest| == 0 {
        NameRemovedSpec(t, name);
      } else {
        FilterKeyIsSubsequence(obs, o.Key());
        FilterKeepsDistinct(obs, rest);
        assert NamesDistinct(r);
        LookupAt(r, i);
        forall n | n != name ensures Lookup(r, n) == Lookup(t, n) {
          forall e | e in t && e.name == n ensures e in r {
            var k :| 0 <= k < |t| && t[k] == e;
            assert r[k] == e;
          }
          SameEntriesSameLookup(t, r, n);
        }
      }
    }
  }

  lemma RemovedEverywhereValid(t: seq<Entry>, ref: ObserverRef)
    requires TableValid(t)
    ensures TableValid(RemovedEverywhere(t, ref))
  {
    var r := RemovedEverywhere(t, ref);
    forall k | 0 <= k < |t| ensures KeysDistinct(r[k].observers) {
      WithoutRefIsSubsequence(t[k].observers, ref);
      FilterKeepsDistinct(t[k].observers, r[k].observers);
    }
  }

  /**
   * `removeObservers(for: ref)` leaves no entry of `ref` anywhere, keeps every
   * other entry, and never removes a registration, not even one left empty.
   */
  lemma RemovedEverywhereSpec(t: seq<Entry>, ref: ObserverRef)
    requires TableValid(t)
    ensures var r := RemovedEverywhere(t, ref);
      && TableValid(r)
      && |r| == |t|
      && (forall k :: 0 <= k < |t| ==> r[k].name == t[k].name)
      && (forall n :: Lookup(r, n) == (match Lookup(t, n)
                                         case None => None
                                         case Some(obs) => Some(WithoutRef(obs, ref))))
      && (forall k, x :: 0 <= k < |r| && x in r[k].observers ==> x.observer != ref)
  {
    var r := RemovedEverywhere(t, ref);
    RemovedEverywhereValid(t, ref);
    forall n ensures Lookup(r, n) == (match Lookup(t, n)
                                        case None => None
                                        case Some(obs) => Some(WithoutRef(obs, ref))) {
      var i := IndexOfName(t, n);
      if 0 <= i {
        LookupAt(t, i);
        LookupAt(r, i);
      } else {
        assert !HasName(r, n);
      }
    }
  }

  // ---------------------------------------------------------------------
  // What the system notification center ends up delivering
  // ---------------------------------------------------------------------

  /** One observation the system notification center holds. */
  datatype SystemObservation = SystemObservation(observer: ObserverRef, selector: Selector, name: NotificationName, filter: Option<ObjectRef>)

  /** `NotificationCenter.removeObserver(ref, name:, object:)` matches these. */
  predicate RemovedBy(e: SystemObservation, ref: ObserverRef, name: NotificationName, filter: Option<ObjectRef>) {
    e.observer == ref && e.name == name && (filter.None? || e.filter == filter)
  }

  function Unsubscribe(regs: seq<SystemObservation>, ref: ObserverRef, name: NotificationName, filter: Option<ObjectRef>): (r: seq<SystemObservation>)
    ensures forall e :: e in r <==> e in regs && !RemovedBy(e, ref, name, filter)
  {
    if regs == [] then []
    else (if RemovedBy(regs[0], ref, name, filter) then [] else [regs[0]]) + Unsubscribe(regs[1..], ref, name, filter)
  }

  function UnsubscribeAll(regs: seq<SystemObservation>, ref: ObserverRef): (r: seq<SystemObservation>)
    ensures forall e :: e in r <==> e in regs && e.observer != ref
  {
    if regs == [] then []
    else (if regs[0].observer == ref then [] else [regs[0]]) + UnsubscribeAll(regs[1..], ref)
  }

  /** The system center's observations after it receives `calls`, in order. */
  function Replay(regs: seq<SystemObservation>, calls: seq<SystemCall>): seq<SystemObservation>
    decreases |calls|
  {
    if calls == [] then regs
    else
      var next := match calls[0]
        case SystemPost(_, _, _) => regs
        case SystemAddObserver(ref, sel, name, filter) => regs + [SystemObservation(ref, sel, name, filter)]
        case SystemRemoveObserver(ref, name, filter) => Unsubscribe(regs, ref, name, filter)
        case SystemRemoveEverywhere(ref) => UnsubscribeAll(regs, ref);
      Replay(next, calls[1..])
  }

  /** The system center still delivers `name` to `ref` for this filter. */
  predicate StillObserving(regs: seq<SystemObservation>, ref: ObserverRef, name: NotificationName, filter: Option<ObjectRef>) {
    exists e :: e in regs && RemovedBy(e, ref, name, filter)
  }

  function RemovalCalls(obs: seq<Observer>, name: NotificationName): seq<SystemCall> {
    seq(|obs|, k requires 0 <= k < |obs| => SystemRemoveObserver(obs[k].observer, name, obs[k].filter))
  }

  /**
   * What `removePost` forwards to the system center, as written: when the name
   * is registered and an observer is given, nothing is forwarded.
   */
  function RemovePostCallsAsWritten(t: seq<Entry>, name: NotificationName, observer: Option<Observer>): seq<SystemCall> {
    var i := IndexOfName(t, name);
    match observer
    case Some(o) => if i < 0 then [SystemRemoveObserver(o.observer, name, o.filter)] else []
    case None => if i < 0 then [] else RemovalCalls(t[i].observers, name)
  }

  /** What `removePost` forwards once the observer is also removed from the system center when registered. */
  function RemovePostCalls(t: seq<Entry>, name: NotificationName, observer: Option<Observer>): seq<SystemCall> {
    match observer
    case Some(o) => [SystemRemoveObserver(o.observer, name, o.filter)]
    case None =>
      var i := IndexOfName(t, name);
      if i < 0 then [] else RemovalCalls(t[i].observers, name)
  }

  /**
   * As written, `removePost(name, observer: o)` on a registered name forgets `o`
   * in the registry while the system center goes on delivering to it.
   */
  lemma RemovePostAsWrittenKeepsDelivering()
    ensures var o := Observer(1, "didReceive:", None);
      var t := [Entry(NotDefined, [o])];
      var regs := [SystemObservation(1, "didReceive:", NotDefined, None)];
      && Lookup(ObserverRemoved(t, NotDefined, o), NotDefined) == None
      && StillObserving(Replay(regs, RemovePostCallsAsWritten(t, NotDefined, Some(o))), 1, NotDefined, None)
  {
    var o := Observer(1, "didReceive:", None);
    var t := [Entry(NotDefined, [o])];
    var regs := [SystemObservation(1, "didReceive:", NotDefined, None)];
    assert IndexOfName(t, NotDefined) == 0;
    assert ObserverRemoved(t, NotDefined, o) == [];
    assert RemovePostCallsAsWritten(t, NotDefined, Some(o)) == [];
    assert regs[0] in regs;
  }

  /** With the removal forwarded, the system center stops delivering the name to the observer. */
  lemma RemovePostStopsDelivering(regs: seq<SystemObservation>, t: seq<Entry>, name: NotificationName, o: Observer)
    ensures !StillObserving(Replay(regs, RemovePostCalls(t, name, Some(o))), o.observer, name, o.filter)
  {
    var calls := RemovePostCalls(t, name, Some(o));
    assert calls[1..] == [];
    assert Replay(regs, calls) == Unsubscribe(regs, o.observer, name, o.filter);
  }

  // ---------------------------------------------------------------------
  // The objects
  // ---------------------------------------------------------------------

  /** `AppNotification`: one name and the observers registered under it. */
  class Registration {
    const name: NotificationName
    var observers: seq<Observer>

    ghost predicate Valid()
      reads this
    {
      KeysDistinct(observers)
    }

    constructor (name: NotificationName, observer: Observer)
      ensures this.name == name && observers == [observer] && Valid()
    {
      this.name := name;
      observers := [observer];
    }

    /** `addObserver`: appends `o` unless an entry with its key is there already. */
    method AddObserver(o: Observer)
      requires Valid()
      modifies this
      ensures Valid()
      ensures observers == WithObserver(old(observers), o)
    {
      if !HasKey(observers, o.Key()) {
        observers := observers + [o];
      }
    }

    /** `removeObserver`: cuts out the entry with `o`'s key, keeping the order of the rest. */
    method RemoveObserver(o: Observer)
      requires Valid()
      modifies this
      ensures Valid()
      ensures observers == WithoutKey(old(observers), o.Key())
      ensures observers == FilterKey(old(observers), o.Key())
    {
      WithoutKeyIsFilter(observers, o.Key());
      FilterKeyIsSubsequence(observers, o.Key());
      FilterKeepsDistinct(observers, FilterKey(observers, o.Key()));
      var i := IndexOfKey(observers, o.Key());
      if 0 <= i {
        observers := observers[..i] + observers[i + 1..];
      }
    }

    /** `for object in objects { removeObserver(object) }`: one removal per entry of `objects`. */
    method RemoveEach(objects: seq<Observer>)
      requires Valid()
      modifies this
      ensures Valid()
      ensures observers == DropKeys(old(observers), objects)
    {
      ghost var orig := observers;
      DropNoKeys(orig);
      assert objects[..0] == [];
      var j := 0;
      while j < |objects|
        invariant 0 <= j <= |objects|
        invariant Valid()
        invariant observers == DropKeys(orig, objects[..j])
      {
        RemoveObserver(objects[j]);
        DropOneMoreKey(orig, objects[..j], objects[j]);
        assert objects[..j + 1] == objects[..j] + [objects[j]];
        j := j + 1;
      }
      assert objects[..j] == objects;
    }

    /** `removeAllObservers`. */
    method RemoveAllObservers()
      modifies this
      ensures Valid()
      ensures observers == []
    {
      observers := [];
    }
  }

  /** The registrations seen as values. */
  function Snapshot(rs: seq<Registration>): (t: seq<Entry>)
    reads rs
    ensures |t| == |rs|
    ensures forall k :: 0 <= k < |rs| ==> t[k] == Entry(rs[k].name, rs[k].observers)
  {
    if rs == [] then [] else [Entry(rs[0].name, rs[0].observers)] + Snapshot(rs[1..])
  }

  /** `AppNotificationCenter` with its two static arrays, and the calls it forwards. */
  class Center {
    var registered: seq<Registration>
    var posted: seq<PostItem>
    var systemCalls: seq<SystemCall>

    /** `registedObservers`, as values. */
    function Table(): seq<Entry>
      reads this, registered
    {
      Snapshot(registered)
    }

    ghost predicate Valid()
      reads this, registered
    {
      TableValid(Table())
    }

    constructor ()
      ensures Valid()
      ensures registered == [] && posted == [] && systemCalls == []
    {
      registered := [];
      posted := [];
      systemCalls := [];
    }

    /** `post`: forwards the notification and logs it at the end of `postedNotifications`. */
    method Post(name: NotificationName, sender: Option<ObjectRef>, userInfo: Option<UserInfo>)
      requires Valid()
      modifies this
      ensures Valid()
      ensures posted == old(posted) + [PostItem(name, sender, userInfo)]
      ensures systemCalls == old(systemCalls) + [SystemPost(name, sender, userInfo)]
      ensures registered == old(registered) && Table() == old(Table())
    {
      systemCalls := systemCalls + [SystemPost(name, sender, userInfo)];
      posted := posted + [PostItem(name, sender, userInfo)];
    }

    /**
     * `observePost`: forwards the observation, then adds `o` to the name's
     * registration, creating one at the end when the name has none.
     */
    method ObservePost(name: NotificationName, o: Observer) returns (r: Registration)
      requires Valid()
      modifies this, registered
      ensures Valid()
      ensures Table() == Observed(old(Table()), name, o)
      ensures r in registered && r.name == name && HasKey(r.observers, o.Key())
      ensures fresh(r) <==> !HasName(old(Table()), name)
      ensures posted == old(posted)
      ensures systemCalls == old(systemCalls) + [SystemAddObserver(o.observer, o.selector, name, o.filter)]
    {
      systemCalls := systemCalls + [SystemAddObserver(o.observer, o.selector, name, o.filter)];
      ghost var t := Table();
      ObservedValid(t, name, o);
      var i := IndexOfName(Table(), name);
      if i < 0 {
        r := AppendRegistration(name, o);
      } else {
        r := AddToRegistration(i, o);
      }
    }

    /** `observePost` for a name without a registration: a new one holding `o` goes at the end. */
    method AppendRegistration(name: NotificationName, o: Observer) returns (r: Registration)
      modifies this
      ensures fresh(r) && r.name == name && r.observers == [o] && HasKey(r.observers, o.Key())
      ensures registered == old(registered) + [r]
      ensures Table() == old(Table()) + [Entry(name, [o])]
      ensures posted == old(posted) && systemCalls == old(systemCalls)
    {
      ghost var t := Table();
      r := new Registration(name, o);
      assert r.observers[0] == o;
      registered := registered + [r];
      assert Table() == t + [Entry(name, [o])];
    }

    /** `observePost` for the name registered at `i`: `o` is added to that registration. */
    method AddToRegistration(i: nat, o: Observer) returns (r: Registration)
      requires Valid() && i < |registered|
      modifies registered[i]
      ensures r == registered[i] && HasKey(r.observers, o.Key())
      ensures Table() == old(Table()[i := Entry(Table()[i].name, WithObserver(Table()[i].observers, o))])
    {
      ghost var t := Table();
      r := registered[i];
      assert forall k :: 0 <= k < |registered| && k != i ==> registered[k] != r by {
        forall k | 0 <= k < |registered| && k != i ensures registered[k] != r {
          assert t[k].name != t[i].name;
        }
      }
      r.AddObserver(o);
      assert Table() == t[i := Entry(t[i].name, WithObserver(t[i].observers, o))];
    }

    /** `_registedObservers.remove(at: i)`. */
    method Unregister(i: nat)
      requires i < |registered|
      modifies this
      ensures registered == old(registered[..i] + registered[i + 1..])
      ensures Table() == old(Table()[..i] + Table()[i + 1..])
      ensures posted == old(posted) && systemCalls == old(systemCalls)
    {
      ghost var t := Table();
      registered := registered[..i] + registered[i + 1..];
      assert Table() == t[..i] + t[i + 1..];
    }

    /**
     * `removePost` for a registered name and no observer: asks the system
     * center to forget every entry of the registration at `i`, empties it and
     * drops it.
     */
    method DropRegistration(i: nat)
      requires Valid() && i < |registered|
      modifies this, registered
      ensures Table() == old(Table()[..i] + Table()[i + 1..])
      ensures old(registered)[i].observers == []
      ensures posted == old(posted)
      ensures systemCalls == old(systemCalls) + RemovalCalls(old(Table())[i].observers, old(Table())[i].name)
    {
      ghost var t := Table();
      var n := registered[i];
      assert forall k :: 0 <= k < |registered| && k != i ==> registered[k] != n by {
        forall k | 0 <= k < |registered| && k != i ensures registered[k] != n {
          assert t[k].name != t[i].name;
        }
      }
      systemCalls := systemCalls + RemovalCalls(n.observers, n.name);
      n.RemoveAllObservers();
      assert Table() == t[i := Entry(n.name, [])];
      Unregister(i);
      assert Table() == t[..i] + t[i + 1..];
    }

    /**
     * `removePost` for a registered name and an observer: removes the
     * observer from the registration at `i` and drops the registration once
     * it is empty. The Swift branch forwards nothing to the system center
     * (`RemovePostCallsAsWritten`); this method also forwards the removal,
     * which is the corrected behaviour `RemovePostStopsDelivering` is about.
     */
    method RemoveFromRegistration(i: nat, o: Observer)
      requires Valid() && i < |registered|
      modifies this, registered
      ensures var t := old(Table());
        var rest := WithoutKey(t[i].observers, o.Key());
        Table() == if |rest| == 0 then t[..i] + t[i + 1..] else t[i := Entry(t[i].name, rest)]
      ensures posted == old(posted)
      ensures systemCalls == old(systemCalls) + [SystemRemoveObserver(o.observer, old(Table())[i].name, o.filter)]
    {
      ghost var t := Table();
      var n := registered[i];
      assert forall k :: 0 <= k < |registered| && k != i ==> registered[k] != n by {
        forall k | 0 <= k < |registered| && k != i ensures registered[k] != n {
          assert t[k].name != t[i].name;
        }
      }
      assert t[i].observers == n.observers;
      n.RemoveObserver(o);
      ghost var rest := WithoutKey(t[i].observers, o.Key());
      assert n.observers == rest;
      systemCalls := systemCalls + [SystemRemoveObserver(o.observer, n.name, o.filter)];
      assert Table() == t[i := Entry(n.name, rest)];
      if |n.observers| == 0 {
        Unregister(i);
        assert Table() == t[..i] + t[i + 1..];
      }
    }

    /**
     * `removePost`: without an observer, empties and drops the name's
     * registration; with one, removes it and drops the registration once it is
     * empty. Either way other names are untouched. The forwarded calls are the
     * corrected `RemovePostCalls`, not `RemovePostCallsAsWritten`.
     */
    method RemovePost(name: NotificationName, observer: Option<Observer>)
      requires Valid()
      modifies this, registered
      ensures Valid()
      ensures observer.None? ==> Table() == NameRemoved(old(Table()), name)
      ensures observer.Some? ==> Table() == ObserverRemoved(old(Table()), name, observer.value)
      ensures observer.None? && HasName(old(Table()), name) ==>
                old(registered)[IndexOfName(old(Table()), name)].observers == []
      ensures posted == old(posted)
      ensures systemCalls == old(systemCalls) + RemovePostCalls(old(Table()), name, observer)
    {
      ghost var t := Table();
      var i := IndexOfName(Table(), name);
      if i < 0 {
        if observer.Some? {
          var o := observer.value;
          systemCalls := systemCalls + [SystemRemoveObserver(o.observer, name, o.filter)];
        }
        return;
      }
      if observer.None? {
        DropRegistration(i);
        NameRemovedSpec(t, name);
      } else {
        RemoveFromRegistration(i, observer.value);
        ObserverRemovedSpec(t, name, observer.value);
      }
    }

    /**
     * `removeObservers(for: ref)`: in every registration, removes each entry
     * whose observer is `ref`, one at a time; then tells the system center to
     * forget `ref` altogether.
     */
    method RemoveObservers(ref: ObserverRef)
      requires Valid()
      modifies this, registered
      ensures Valid()
      ensures registered == old(registered)
      ensures Table() == RemovedEverywhere(old(Table()), ref)
      ensures posted == old(posted)
      ensures systemCalls == old(systemCalls) + [SystemRemoveEverywhere(ref)]
    {
      ghost var t := Table();
      RemovedEverywhereValid(t, ref);
      ghost var target := RemovedEverywhere(t, ref);
      var regs := registered;
      var i := 0;
      while i < |regs|
        invariant 0 <= i <= |regs|
        invariant registered == regs && posted == old(posted) && systemCalls == old(systemCalls)
        invariant forall k :: 0 <= k < i ==> regs[k].observers == target[k].observers
        invariant forall k :: i <= k < |regs| ==> regs[k].observers == t[k].observers
      {
        var n := regs[i];
        assert forall k :: 0 <= k < |regs| && k != i ==> regs[k] != n by {
          forall k | 0 <= k < |regs| && k != i ensures regs[k] != n {
            assert t[k].name != t[i].name;
          }
        }
        ghost var orig := n.observers;
        assert n.Valid();
        var objects := Matching(n.observers, ref);
        n.RemoveEach(objects);
        MatchingKeys(orig, ref);
        DropKeysOfRef(orig, objects, ref);
        i := i + 1;
      }
      systemCalls := systemCalls + [SystemRemoveEverywhere(ref)];
      assert Table() == target;
    }
  }
}
