/**
 The two keys under which a TimerQueue files its timers, and std::set ordered by
 (expiration, pointer), kept here as a strictly increasing sequence: begin() is
 the element at index 0.
 */
module OrderedTimers {
  const UINTPTR_MAX := 0xFFFF_FFFF_FFFF_FFFF

  // The address of a live object is below UINTPTR_MAX, which getExpired uses as a sentry.
  type Addr = a: nat | a < UINTPTR_MAX

  datatype Entry = Entry(when: int, addr: nat)

  predicate Before(a: Entry, b: Entry) {
    a.when < b.when || (a.when == b.when && a.addr < b.addr)
  }

  ghost predicate Ordered(ts: seq<Entry>) {
    forall i, j :: 0 <= i < j < |ts| ==> Before(ts[i], ts[j])
  }

  // std::set::lower_bound: how many elements come before the key.
  function LowerBound(ts: seq<Entry>, key: Entry): (k: nat)
    ensures k <= |ts|
    ensures forall i :: 0 <= i < k ==> Before(ts[i], key)
    ensures Ordered(ts) ==> forall i :: k <= i < |ts| ==> !Before(ts[i], key)
  {
    if ts == [] || !Before(ts[0], key) then 0
    else 1 + LowerBound(ts[1..], key)
  }

  // std::set::insert
  function Add(ts: seq<Entry>, e: Entry): (r: seq<Entry>)
    ensures Ordered(ts) ==> Ordered(r)
    ensures Ordered(ts) ==> forall x :: x in r <==> x in ts || x == e
    ensures Ordered(ts) ==> r != [] && r[0] == if ts == [] || Before(e, ts[0]) then e else ts[0]
  {
    var k := LowerBound(ts, e);
    if k < |ts| && ts[k] == e then ts
    else
      assert Ordered(ts) ==> Ordered(ts[..k] + [e] + ts[k..]) by {
        if Ordered(ts) { InsertedInOrder(ts, k, e); }
      }
      assert ts == ts[..k] + ts[k..];
      ts[..k] + [e] + ts[k..]
  }

  lemma InsertedInOrder(ts: seq<Entry>, k: nat, e: Entry)
    requires Ordered(ts) && k <= |ts|
    requires forall i :: 0 <= i < k ==> Before(ts[i], e)
    requires forall i :: k <= i < |ts| ==> Before(e, ts[i])
    ensures Ordered(ts[..k] + [e] + ts[k..])
  {
  }

  // std::set::erase by key
  function Erase(ts: seq<Entry>, e: Entry): (r: seq<Entry>)
    ensures Ordered(ts) ==> Ordered(r)
    ensures Ordered(ts) ==> forall x :: x in r <==> x in ts && x != e
    ensures Ordered(ts) && ts != [] && r != [] ==> r[0] == ts[0] || Before(ts[0], r[0])
  {
    var k := LowerBound(ts, e);
    if k < |ts| && ts[k] == e then
      assert Ordered(ts) ==> e !in ts[..k] && e !in ts[k + 1..];
      assert ts == ts[..k] + [e] + ts[k + 1..];
      ts[..k] + ts[k + 1..]
    else
      assert Ordered(ts) ==> e !in ts;
      ts
  }

  // A prefix and the rest of an ordered set are ordered and share nothing.
  lemma SplitOrdered(ts: seq<Entry>, k: nat)
    requires Ordered(ts) && k <= |ts|
    ensures Ordered(ts[..k]) && Ordered(ts[k..])
    ensures forall x :: x in ts <==> x in ts[..k] || x in ts[k..]
    ensures forall x :: x in ts[..k] ==> x !in ts[k..]
  {
    assert ts == ts[..k] + ts[k..];
  }
}
