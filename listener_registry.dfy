/** The listener registry's key order and its bulk teardown, as values.
    A JavaScript object enumerates keys that are not array indices in the order
    they were first inserted, so the registry is a map plus that order. */
module ListenerRegistry {
  import opened Definitions
  import opened FirestoreSdk
  import opened Sequences

  /** `s` with every occurrence of `k` removed, the rest in order: what `delete`
      does to the object's key order. */
  function Without(s: seq<CallbackId>, k: CallbackId): (r: seq<CallbackId>)
    ensures forall x :: x in r <==> x in s && x != k
    ensures |r| <= |s|
    ensures NoDup(s) ==> NoDup(r)
  {
    if s == [] then []
    else if s[0] == k then Without(s[1..], k)
    else
      var rest := Without(s[1..], k);
      assert NoDup(s) ==> s[0] !in s[1..];
      [s[0]] + rest
  }

  /** Deleting a key that occurs once cuts exactly that position out. */
  lemma {:induction false} WithoutSplice(s: seq<CallbackId>, i: nat)
    requires NoDup(s) && i < |s|
    ensures Without(s, s[i]) == s[..i] + s[i + 1..]
  {
    if i == 0 {
      WithoutAbsent(s[1..], s[0]);
    } else {
      NoDupSuffix(s);
      assert s[1..][i - 1] == s[i];
      WithoutSplice(s[1..], i - 1);
      assert s[1..][..i - 1] + s[1..][i..] == s[1..i] + s[i + 1..];
      assert s[..i] == [s[0]] + s[1..i];
    }
  }

  /** Deleting an absent key leaves the order as it was. */
  lemma {:induction false} WithoutAbsent(s: seq<CallbackId>, k: CallbackId)
    requires k !in s
    ensures Without(s, k) == s
  {
    if s != [] {
      assert s[1..] + [] == s[1..];
      WithoutAbsent(s[1..], k);
      assert s == [s[0]] + s[1..];
    }
  }

  /** What `clearAllSnapshotListeners` does to an ordered run of keys: the
      handles it invoked, in order, the keys still registered afterwards, and
      whether a handle threw. */
  datatype SweepResult<V> = SweepResult(invoked: seq<Unsubscribe<V>>, remaining: seq<CallbackId>, threw: bool)

  /** The `for...in` sweep with no `try`: each handle in key order is invoked and
      its key then deleted; the first handle that throws ends the sweep with its
      own key and every later key still registered. A key that is no longer in
      the map is skipped, as `for...in` skips properties deleted before they are
      reached. */
  function Sweep<V>(subs: map<CallbackId, Unsubscribe<V>>, keys: seq<CallbackId>, throws: Unsubscribe<V> -> bool): (s: SweepResult<V>)
    ensures |s.invoked| <= |keys| && |s.remaining| <= |keys|
    ensures s.threw <==> s.remaining != []
    ensures s.remaining != [] ==> s.remaining[0] in subs && throws(subs[s.remaining[0]])
    decreases |keys|
  {
    if keys == [] then SweepResult([], [], false)
    else if keys[0] !in subs then Sweep(subs, keys[1..], throws)
    else
      var h := subs[keys[0]];
      if throws(h) then SweepResult([h], keys, true)
      else
        var rest := Sweep(subs, keys[1..], throws);
        SweepResult([h] + rest.invoked, rest.remaining, rest.threw)
  }

  /** `done` handles already invoked, followed by what the sweep does next. */
  function Prepend<V>(done: seq<Unsubscribe<V>>, r: SweepResult<V>): SweepResult<V>
  {
    SweepResult(done + r.invoked, r.remaining, r.threw)
  }

  /** One step of the sweep: the first handle runs; if it throws the sweep
      ends there with every key still registered, otherwise it goes on with
      the keys after it. */
  lemma SweepAdvance<V>(subs: map<CallbackId, Unsubscribe<V>>, keys: seq<CallbackId>, done: seq<Unsubscribe<V>>,
                        s: SweepResult<V>, throws: Unsubscribe<V> -> bool)
    requires keys != [] && keys[0] in subs
    requires s == Prepend(done, Sweep(subs, keys, throws))
    ensures var h := subs[keys[0]];
      && (throws(h) ==> s == SweepResult(done + [h], keys, true))
      && (!throws(h) ==> s == Prepend(done + [h], Sweep(subs, keys[1..], throws)))
  {
    var h := subs[keys[0]];
    if !throws(h) {
      var rest := Sweep(subs, keys[1..], throws);
      assert done + ([h] + rest.invoked) == (done + [h]) + rest.invoked;
    }
  }

  /** The sweep stops exactly at the first throwing handle: the keys before it
      are all deleted after their handles ran, in order; that handle is invoked
      too, and it and every later key stay registered. Without a throwing
      handle every handle runs once, in key order, and nothing stays. */
  lemma {:induction false} SweepStopsAtFirstThrow<V>(subs: map<CallbackId, Unsubscribe<V>>, keys: seq<CallbackId>, throws: Unsubscribe<V> -> bool)
    requires forall k :: k in keys ==> k in subs
    ensures var s := Sweep(subs, keys, throws);
      && |s.remaining| <= |keys| && s.remaining == keys[|keys| - |s.remaining|..]
      && (s.threw <==> s.remaining != [])
      && |s.invoked| == (if s.threw then |keys| - |s.remaining| + 1 else |keys|)
      && (forall i :: 0 <= i < |s.invoked| ==> s.invoked[i] == subs[keys[i]])
      && (forall i :: 0 <= i < |keys| - |s.remaining| ==> !throws(subs[keys[i]]))
      && (s.threw ==> throws(subs[s.remaining[0]]))
    decreases |keys|
  {
    if keys != [] {
      var h := subs[keys[0]];
      if !throws(h) {
        var tail := keys[1..];
        SweepStopsAtFirstThrow(subs, tail, throws);
        var rest := Sweep(subs, tail, throws);
        var s := Sweep(subs, keys, throws);
        assert s == SweepResult([h] + rest.invoked, rest.remaining, rest.threw);
        assert tail[|tail| - |rest.remaining|..] == keys[|keys| - |rest.remaining|..];
        forall i | 0 <= i < |s.invoked| ensures s.invoked[i] == subs[keys[i]] {
          if i > 0 {
            assert s.invoked[i] == rest.invoked[i - 1];
            assert tail[i - 1] == keys[i];
          }
        }
        forall i | 0 <= i < |keys| - |s.remaining| ensures !throws(subs[keys[i]]) {
          if i > 0 {
            assert tail[i - 1] == keys[i];
          }
        }
      }
    }
  }

  /** The handles stored under `keys`, in the order of `keys`. */
  function Handles<V>(subs: map<CallbackId, Unsubscribe<V>>, keys: seq<CallbackId>): (hs: seq<Unsubscribe<V>>)
    requires forall k :: k in keys ==> k in subs
    ensures |hs| == |keys| && forall i :: 0 <= i < |keys| ==> hs[i] == subs[keys[i]]
  {
    seq(|keys|, i requires 0 <= i < |keys| => subs[keys[i]])
  }

  /** With no throwing handle the sweep invokes every handle, once each and in
      key order, and leaves nothing registered. */
  lemma SweepWithoutThrowClearsAll<V>(subs: map<CallbackId, Unsubscribe<V>>, keys: seq<CallbackId>, throws: Unsubscribe<V> -> bool)
    requires forall k :: k in keys ==> k in subs
    requires forall k :: k in keys ==> !throws(subs[k])
    ensures Sweep(subs, keys, throws) == SweepResult(Handles(subs, keys), [], false)
  {
    SweepStopsAtFirstThrow(subs, keys, throws);
  }
}
