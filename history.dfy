/**
 * The capped in-memory message store: append at the end, drop the single
 * oldest entry once the length passes the capacity, and replay the newest
 * entries oldest-first.
 */
module History {

  /** The last `min(|s|, n)` entries of `s`, oldest first: drop from the front until at most `n` remain. */
  function Newest<T>(s: seq<T>, n: nat): (r: seq<T>)
    ensures |r| == if |s| < n then |s| else n
    decreases |s|
  {
    if |s| <= n then s else Newest(s[1..], n)
  }

  /** `Newest` is the slice `s[max(|s| - n, 0):]`, the expression the Go code uses. */
  lemma {:induction false} NewestIsSlice<T>(s: seq<T>, n: nat)
    ensures Newest(s, n) == s[if |s| < n then 0 else |s| - n..]
    decreases |s|
  {
    if |s| > n {
      NewestIsSlice(s[1..], n);
      assert s[1..][|s| - 1 - n..] == s[|s| - n..];
    }
  }

  /** Appends `m`; if the store then holds more than `cap` entries, the first one is removed. */
  function Push<T>(h: seq<T>, m: T, cap: nat): (r: seq<T>)
    ensures |h| <= cap ==> |r| <= cap
    ensures |h| < cap ==> r == h + [m]
    ensures cap > 0 ==> r != [] && r[|r| - 1] == m
  {
    var appended := h + [m];
    if |appended| > cap then appended[1..] else appended
  }

  /** Pushing onto the newest `cap` entries gives the newest `cap` entries of the longer sequence. */
  lemma PushNewest<T>(s: seq<T>, m: T, cap: nat)
    ensures Push(Newest(s, cap), m, cap) == Newest(s + [m], cap)
  {
    NewestIsSlice(s, cap);
    NewestIsSlice(s + [m], cap);
    var h := Newest(s, cap);
    if |s| >= cap {
      assert (h + [m])[1..] == (s + [m])[|s| + 1 - cap..];
    }
  }

  /** The store after pushing every entry of `ms`, in order, onto an empty store. */
  function StoreAll<T>(ms: seq<T>, cap: nat): (r: seq<T>)
    ensures |r| <= cap
  {
    if ms == [] then [] else Push(StoreAll(ms[..|ms| - 1], cap), ms[|ms| - 1], cap)
  }

  /** After any number of pushes the store holds exactly the `cap` most recent entries, in order. */
  lemma {:induction false} StoreAllIsNewest<T>(ms: seq<T>, cap: nat)
    ensures StoreAll(ms, cap) == Newest(ms, cap)
  {
    if ms != [] {
      var init := ms[..|ms| - 1];
      StoreAllIsNewest(init, cap);
      PushNewest(init, ms[|ms| - 1], cap);
      assert init + [ms[|ms| - 1]] == ms;
    }
  }

  /** Replaying `k` entries from a store capped at `cap >= k` loses nothing to the cap. */
  lemma NewestOfNewest<T>(s: seq<T>, cap: nat, k: nat)
    requires k <= cap
    ensures Newest(Newest(s, cap), k) == Newest(s, k)
  {
    NewestIsSlice(s, cap);
    NewestIsSlice(s, k);
    NewestIsSlice(Newest(s, cap), k);
  }

  /** 1005 stored messages with capacity 1000: the oldest retained one is the sixth. */
  lemma EvictionExample<T>(ms: seq<T>)
    requires |ms| == 1005
    ensures |StoreAll(ms, 1000)| == 1000
    ensures StoreAll(ms, 1000)[0] == ms[5]
    ensures StoreAll(ms, 1000)[999] == ms[1004]
  {
    StoreAllIsNewest(ms, 1000);
    NewestIsSlice(ms, 1000);
  }

  /** 80 stored messages, replay of 50: entries 31 to 80 (indices 30 to 79), oldest first. */
  lemma ReplayExample<T>(ms: seq<T>)
    requires |ms| == 80
    ensures Newest(StoreAll(ms, 1000), 50) == ms[30..]
  {
    StoreAllIsNewest(ms, 1000);
    NewestIsSlice(ms, 1000);
    NewestIsSlice(ms, 50);
  }
}
