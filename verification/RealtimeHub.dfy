/** The realtime hub. */
module RealtimeHub {
  // The realtime hub: a map from channels to mutable sets of listeners, and
  // unsubscribe closures that hold on to the set they were made with.

  type Channel = string
  type Listener = nat

  /** What an unsubscribe function captures. */
  datatype Closure<!S(==)> = Closure(channel: Channel, listener: Listener, captured: S)

  /** The hub over any kind of set identity: which set each channel has now, and
      what every set ever made holds, in order of insertion. */
  datatype Hub<!S(==)> = Hub(live: map<Channel, S>, sets: map<S, seq<Listener>>)

  predicate Valid<S(==)>(h: Hub<S>) { forall c :: c in h.live ==> h.live[c] in h.sets }

  function Add(s: seq<Listener>, l: Listener): seq<Listener> { if l in s then s else s + [l] }

  function Delete(s: seq<Listener>, l: Listener): seq<Listener> {
    if s == [] then []
    else Delete(s[..|s| - 1], l) + (if s[|s| - 1] == l then [] else [s[|s| - 1]])
  }

  /** `subscribe`; `made` is the set it makes if the channel has none. */
  function Subscribe<S(==)>(h: Hub<S>, c: Channel, l: Listener, made: S): (r: (Hub<S>, Closure<S>))
    requires Valid(h)
  {
    var s := if c in h.live then h.live[c] else made;
    var members := if c in h.live then h.sets[s] else [];
    (Hub(h.live[c := s], h.sets[s := Add(members, l)]), Closure(c, l, s))
  }

  /** The returned function, whenever it is called. */
  function Unsubscribe<S(==)>(h: Hub<S>, k: Closure<S>): Hub<S>
    requires k.captured in h.sets
  {
    var members := Delete(h.sets[k.captured], k.listener);
    Hub(if members == [] then h.live - {k.channel} else h.live, h.sets[k.captured := members])
  }

  /** The listeners that `dispatchLocal` calls. */
  function Dispatch<S(==)>(h: Hub<S>, c: Channel): seq<Listener>
    requires Valid(h)
  {
    if c in h.live then h.sets[h.live[c]] else []
  }

  // ------------------------------------------------- the plain set of subscriptions

  /** A subscription, and whether its closure has been called. */
  datatype Subscription<!S(==)> = Subscription(closure: Closure<S>, spent: bool)

  function Own<S(==)>(s: Subscription<S>, c: Channel): seq<Listener> {
    if !s.spent && s.closure.channel == c then [s.closure.listener] else []
  }

  /** The listeners of the channel that have not unsubscribed, oldest first. */
  function Active<S(==)>(subs: seq<Subscription<S>>, c: Channel): seq<Listener> {
    if subs == [] then [] else Active(subs[..|subs| - 1], c) + Own(subs[|subs| - 1], c)
  }

  predicate Distinct(s: seq<Listener>) { forall i, j :: 0 <= i < j < |s| ==> s[i] != s[j] }

  ghost predicate IsLive<S>(h: Hub<S>, s: S) { exists c :: c in h.live && h.live[c] == s }

  /** Channels share no set, live sets are not empty, and all others are. */
  ghost predicate SetsOk<S>(h: Hub<S>) {
    && Valid(h)
    && (forall c, d :: c in h.live && d in h.live && c != d ==> h.live[c] != h.live[d])
    && (forall s :: s in h.sets ==> (IsLive(h, s) <==> h.sets[s] != []))
  }

  /** Every channel's set holds exactly its active listeners, and every closure's
      set is, or was, its channel's - the live one while the closure is unspent. */
  ghost predicate Refines<S>(h: Hub<S>, subs: seq<Subscription<S>>) {
    && SetsOk(h)
    && (forall c :: Distinct(Active(subs, c)) && Dispatch(h, c) == Active(subs, c))
    && (forall i :: 0 <= i < |subs| ==> ClosureOk(h, subs[i]))
  }

  ghost predicate ClosureOk<S>(h: Hub<S>, s: Subscription<S>) {
    var k := s.closure;
    && k.captured in h.sets
    && (!s.spent ==> k.channel in h.live && h.live[k.channel] == k.captured)
    && (forall c :: c in h.live && h.live[c] == k.captured ==> c == k.channel)
  }

  lemma ActiveOfMore<S>(subs: seq<Subscription<S>>, s: Subscription<S>, c: Channel)
    ensures Active(subs + [s], c) == Active(subs, c) + Own(s, c)
  {
    assert (subs + [s])[..|subs|] == subs;
  }

  lemma DeleteTail(a: seq<Listener>, t: seq<Listener>, l: Listener)
    requires |t| <= 1
    ensures Delete(a + t, l) == Delete(a, l) + (if t == [l] then [] else t)
  {
    if |t| == 1 {
      assert (a + t)[..|a|] == a;
    } else {
      assert a + t == a;
    }
  }

  lemma {:induction false} DeleteAbsent(a: seq<Listener>, l: Listener)
    requires l !in a
    ensures Delete(a, l) == a
  {
    if a != [] {
      DeleteAbsent(a[..|a| - 1], l);
      assert a == a[..|a| - 1] + [a[|a| - 1]];
    }
  }

  lemma DistinctTail(a: seq<Listener>, t: seq<Listener>)
    requires Distinct(a + t)
    ensures Distinct(a) && forall x :: x in t ==> x !in a
  {
    assert forall i :: 0 <= i < |a| ==> (a + t)[i] == a[i];
    forall x | x in t ensures x !in a {
      var j :| 0 <= j < |t| && t[j] == x;
      assert (a + t)[|a| + j] == x;
    }
  }

  lemma {:induction false} DeleteKeepsDistinct(a: seq<Listener>, l: Listener)
    requires Distinct(a)
    ensures Distinct(Delete(a, l)) && forall x :: x in Delete(a, l) <==> x in a && x != l
  {
    if a != [] {
      var front, last := a[..|a| - 1], a[|a| - 1];
      assert a == front + [last];
      DistinctTail(front, [last]);
      DeleteKeepsDistinct(front, l);
      DistinctJoin(Delete(front, l), if last == l then [] else [last]);
    }
  }

  lemma DistinctJoin(a: seq<Listener>, t: seq<Listener>)
    requires Distinct(a) && |t| <= 1 && forall x :: x in t ==> x !in a
    ensures Distinct(a + t)
  {
    assert |t| == 1 ==> t[0] in t;
    assert forall i :: 0 <= i < |a| ==> a[i] in a;
  }

  lemma {:induction false} ActiveHas<S>(subs: seq<Subscription<S>>, k: nat)
    requires k < |subs| && !subs[k].spent
    ensures subs[k].closure.listener in Active(subs, subs[k].closure.channel)
  {
    if k < |subs| - 1 { ActiveHas(subs[..|subs| - 1], k); }
  }

  /** Spending a closure takes its listener out of its channel, and no other. */
  lemma {:induction false} ActiveWhenSpent<S>(subs: seq<Subscription<S>>, k: nat, c: Channel)
    requires k < |subs| && !subs[k].spent && Distinct(Active(subs, subs[k].closure.channel))
    ensures var l := subs[k].closure.listener;
      Active(subs[k := subs[k].(spent := true)], c)
      == if c == subs[k].closure.channel then Delete(Active(subs, c), l) else Active(subs, c)
  {
    hide Distinct, Delete;
    var n, l, own := |subs| - 1, subs[k].closure.listener, subs[k].closure.channel;
    var front, last := subs[..n], subs[n];
    var spent := subs[k := subs[k].(spent := true)];
    DistinctTail(Active(front, own), Own(last, own));
    DeleteTail(Active(front, own), Own(last, own), l);
    if k == n {
      assert spent[..n] == front;
      DeleteAbsent(Active(front, own), l);
    } else {
      ActiveHas(front, k);
      assert spent[..n] == front[k := front[k].(spent := true)] && spent[n] == last;
      ActiveWhenSpent(front, k, c);
    }
  }

  // ----------------------------------------------------------------- the steps

  lemma OwnSet<S>(h: Hub<S>, subs: seq<Subscription<S>>, c: Channel)
    requires Refines(h, subs)
    ensures Distinct(Active(subs, c)) && Dispatch(h, c) == Active(subs, c)
    ensures c in h.live <==> Active(subs, c) != []
  {
    assert c in h.live ==> IsLive(h, h.live[c]);
  }

  /** Whoever subscribes, the sets stay in order. */
  lemma SubscribeKeepsSets<S>(h: Hub<S>, c: Channel, l: Listener, made: S)
    requires SetsOk(h) && made !in h.sets
    ensures SetsOk(Subscribe(h, c, l, made).0)
    ensures forall d :: Dispatch(Subscribe(h, c, l, made).0, d)
                        == if d == c then Add(Dispatch(h, c), l) else Dispatch(h, d)
  {
    var h' := Subscribe(h, c, l, made).0;
    var s := h'.live[c];
    assert IsLive(h', s);
    forall x | x in h'.sets && x != s ensures IsLive(h', x) <==> IsLive(h, x) {
      if IsLive(h, x) {
        var d :| d in h.live && h.live[d] == x;
        assert h'.live[d] == x;
      }
    }
    assert c in h.live ==> IsLive(h, h.live[c]);
  }

  /** Called on its channel's live set, an unsubscribe function takes its listener
      out, and the channel away with its last one. */
  lemma UnsubscribeKeepsSets<S>(h: Hub<S>, k: Closure<S>)
    requires SetsOk(h) && k.channel in h.live && h.live[k.channel] == k.captured
    ensures SetsOk(Unsubscribe(h, k))
    ensures forall d :: Dispatch(Unsubscribe(h, k), d)
                        == if d == k.channel then Delete(Dispatch(h, d), k.listener) else Dispatch(h, d)
  {
    var h' := Unsubscribe(h, k);
    forall x | x in h'.sets && x != k.captured ensures IsLive(h', x) <==> IsLive(h, x) {
      if IsLive(h, x) {
        var d :| d in h.live && h.live[d] == x;
        assert h'.live[d] == x;
      }
    }
    if h'.sets[k.captured] != [] {
      assert h'.live[k.channel] == k.captured;
      assert IsLive(h', k.captured);
    }
  }

  /** A new subscription of a listener that the channel does not have. */
  lemma SubscribeRefines<S>(h: Hub<S>, subs: seq<Subscription<S>>, c: Channel, l: Listener, made: S)
    requires Refines(h, subs) && l !in Active(subs, c) && made !in h.sets
    ensures var (h', k) := Subscribe(h, c, l, made);
      Refines(h', subs + [Subscription(k, false)])
  {
    hide Active, Distinct, ClosureOk, SetsOk;
    IsValid(h, subs);
    var (h', k) := Subscribe(h, c, l, made);
    var sub := Subscription(k, false);
    SubscribeKeepsSets(h, c, l, made);
    forall d ensures Distinct(Active(subs + [sub], d)) && Dispatch(h', d) == Active(subs + [sub], d) {
      OwnSet(h, subs, d);
      ActiveOfMore(subs, sub, d);
      DistinctJoin(Active(subs, d), Own(sub, d));
    }
    forall i | 0 <= i < |subs + [sub]| ensures ClosureOk(h', (subs + [sub])[i]) {
      if i < |subs| { ClosureStays(h, h', subs[i], made); } else { NewClosureOk(h, h', k); }
    }
  }

  lemma ClosureStays<S>(h: Hub<S>, h': Hub<S>, s: Subscription<S>, made: S)
    requires ClosureOk(h, s) && made !in h.sets
    requires h.sets.Keys <= h'.sets.Keys
    requires forall c :: c in h.live ==> c in h'.live && h'.live[c] == h.live[c]
    requires forall c :: c in h'.live && c !in h.live ==> h'.live[c] == made
    ensures ClosureOk(h', s)
  {}

  lemma NewClosureOk<S>(h: Hub<S>, h': Hub<S>, k: Closure<S>)
    requires SetsOk(h') && k.channel in h'.live && h'.live[k.channel] == k.captured && k.captured in h'.sets
    ensures ClosureOk(h', Subscription(k, false))
  {}

  /** An unsubscribe function called for the first time. */
  lemma UnsubscribeRefines<S>(h: Hub<S>, subs: seq<Subscription<S>>, k: nat)
    requires Refines(h, subs) && k < |subs| && !subs[k].spent
    ensures Refines(Unsubscribe(h, subs[k].closure), subs[k := subs[k].(spent := true)])
  {
    hide Active, Distinct, SetsOk, Delete, Unsubscribe, ClosureOk;
    var own, l := subs[k].closure.channel, subs[k].closure.listener;
    assert ClosureOk(h, subs[k]);
    Unspent(h, subs[k]);
    IsValid(h, subs);
    var h', subs' := Unsubscribe(h, subs[k].closure), subs[k := subs[k].(spent := true)];
    UnsubscribeKeepsSets(h, subs[k].closure);
    forall d ensures Distinct(Active(subs', d)) && Dispatch(h', d) == Active(subs', d) {
      OwnSet(h, subs, own);
      OwnSet(h, subs, d);
      DeleteKeepsDistinct(Active(subs, own), l);
      ActiveWhenSpent(subs, k, d);
    }
    forall i | 0 <= i < |subs'| ensures ClosureOk(h', subs'[i]) {
      assert ClosureOk(h, subs[i]);
      OnceSpent(h, subs[i]);
      if !subs'[i].spent { ActiveHas(subs', i); }
      ClosureAfter(h, subs[k].closure, subs'[i]);
    }
  }

  lemma Unspent<S>(h: Hub<S>, s: Subscription<S>)
    requires ClosureOk(h, s) && !s.spent
    ensures s.closure.channel in h.live && h.live[s.closure.channel] == s.closure.captured
    ensures s.closure.captured in h.sets
  {}

  lemma OnceSpent<S>(h: Hub<S>, s: Subscription<S>)
    requires ClosureOk(h, s)
    ensures ClosureOk(h, s.(spent := true)) && s.(spent := true) == Subscription(s.closure, true)
  {}

  lemma ClosureAfter<S>(h: Hub<S>, k: Closure<S>, s: Subscription<S>)
    requires Valid(h) && k.captured in h.sets && ClosureOk(h, Subscription(s.closure, true))
    requires !s.spent ==> ClosureOk(h, s)
    requires SetsOk(Unsubscribe(h, k)) && (!s.spent ==> Dispatch(Unsubscribe(h, k), s.closure.channel) != [])
    ensures ClosureOk(Unsubscribe(h, k), s)
  {}

  // ------------------------------------------------------------ over all runs

  /** Subscribing takes a listener the channel does not have; unsubscribing, a
      closure that has not been called. */
  datatype Step<!S(==)> = SubscribeStep(c: Channel, l: Listener, made: S) | UnsubscribeStep(k: nat)

  ghost predicate Proper<S>(h: Hub<S>, subs: seq<Subscription<S>>, step: Step<S>) {
    match step
    case SubscribeStep(c, l, made) => l !in Active(subs, c) && made !in h.sets
    case UnsubscribeStep(k) => k < |subs| && !subs[k].spent && subs[k].closure.captured in h.sets
  }

  ghost function Run<S>(h: Hub<S>, subs: seq<Subscription<S>>, steps: seq<Step<S>>)
    : (Hub<S>, seq<Subscription<S>>)
    requires Valid(h)
    decreases |steps|
  {
    if steps == [] then (h, subs)
    else if !Proper(h, subs, steps[0]) then Run(h, subs, steps[1..])
    else
      match steps[0]
      case SubscribeStep(c, l, made) =>
        var (h', k) := Subscribe(h, c, l, made);
        Run(h', subs + [Subscription(k, false)], steps[1..])
      case UnsubscribeStep(k) =>
        Run(Unsubscribe(h, subs[k].closure), subs[k := subs[k].(spent := true)], steps[1..])
  }

  lemma {:induction false} RunRefines<S>(h: Hub<S>, subs: seq<Subscription<S>>, steps: seq<Step<S>>)
    requires Refines(h, subs)
    ensures var (h', subs') := Run(h, subs, steps); Refines(h', subs')
    decreases |steps|
  {
    hide Refines, Subscribe, Unsubscribe;
    IsValid(h, subs);
    if steps != [] {
      var step := steps[0];
      if !Proper(h, subs, step) {
        RunRefines(h, subs, steps[1..]);
      } else if step.SubscribeStep? {
        SubscribeRefines(h, subs, step.c, step.l, step.made);
        var (h', k) := Subscribe(h, step.c, step.l, step.made);
        RunRefines(h', subs + [Subscription(k, false)], steps[1..]);
      } else {
        UnsubscribeRefines(h, subs, step.k);
        RunRefines(Unsubscribe(h, subs[step.k].closure), subs[step.k := subs[step.k].(spent := true)], steps[1..]);
      }
    }
  }

  lemma IsValid<S>(h: Hub<S>, subs: seq<Subscription<S>>)
    requires Refines(h, subs)
    ensures Valid(h)
  {}

  /** From the empty hub, whatever is subscribed and unsubscribed in whatever
      order: dispatch reaches exactly the channel's active listeners, once each and
      oldest first; no channel has an empty set; and an unspent closure's set is
      its channel's live one. */
  lemma DispatchReachesTheActive<S>(steps: seq<Step<S>>, c: Channel)
    ensures var (h, subs) := Run<S>(Hub(map[], map[]), [], steps);
      && Valid(h)
      && Dispatch(h, c) == Active(subs, c) && Distinct(Dispatch(h, c))
      && (c in h.live <==> Active(subs, c) != [])
      && (forall i :: 0 <= i < |subs| && !subs[i].spent ==>
            subs[i].closure.channel in h.live && h.live[subs[i].closure.channel] == subs[i].closure.captured)
  {
    hide Run;
    var start: Hub<S> := Hub(map[], map[]);
    assert Refines(start, []) by { EmptyRefines<S>(); }
    RunRefines(start, [], steps);
    var (h, subs) := Run(start, [], steps);
    OwnSet(h, subs, c);
    forall i | 0 <= i < |subs| && !subs[i].spent
      ensures subs[i].closure.channel in h.live && h.live[subs[i].closure.channel] == subs[i].closure.captured
    {
      assert ClosureOk(h, subs[i]);
    }
  }

  lemma EmptyRefines<S>()
    ensures Refines<S>(Hub(map[], map[]), [])
  {}

  /** Calling a closure again harms nobody exactly when its channel has no live
      set, or the same one still and not the same listener in it anew. Otherwise a
      listener that is active is no longer reached. */
  lemma SecondCallHarmlessExactly<S>(h: Hub<S>, subs: seq<Subscription<S>>, i: nat)
    requires Refines(h, subs) && i < |subs| && subs[i].spent
    ensures var k := subs[i].closure;
      && k.captured in h.sets && Valid(Unsubscribe(h, k))
      && ((forall c :: Dispatch(Unsubscribe(h, k), c) == Dispatch(h, c)) <==>
          k.channel in h.live ==> h.live[k.channel] == k.captured && k.listener !in Active(subs, k.channel))
  {
    hide Active, Distinct;
    var k := subs[i].closure;
    assert ClosureOk(h, subs[i]);
    var h' := Unsubscribe(h, k);
    OwnSet(h, subs, k.channel);
    if k.channel in h.live && h.live[k.channel] == k.captured {
      UnsubscribeKeepsSets(h, k);
      var now := Dispatch(h, k.channel);
      DeleteKeepsDistinct(now, k.listener);
      if k.listener !in now { DeleteAbsent(now, k.listener); }
    } else {
      assert !IsLive(h, k.captured);
      assert Dispatch(h', k.channel) == [];
      forall c | c != k.channel ensures Dispatch(h', c) == Dispatch(h, c) {
        assert c in h.live ==> IsLive(h, h.live[c]);
      }
    }
  }

  // ------------------------------------------------------------ a harmful call

  /** Listener 1 subscribes and unsubscribes, then listener 2 subscribes. */
  function TwoListeners(c: Channel): seq<Step<nat>> {
    [SubscribeStep(c, 1, 100), UnsubscribeStep(0), SubscribeStep(c, 2, 101)]
  }

  /** On every channel: when listener 1's closure is called once more, listener 2 is
      active but no longer reached. */
  lemma SecondCallSilences(c: Channel)
    ensures var (h, subs) := Run(Hub(map[], map[]), [], TwoListeners(c));
      && |subs| == 2 && subs[0].spent && subs[0].closure.captured in h.sets
      && Valid(h) && Dispatch(h, c) == [2] && Active(subs, c) == [2]
      && Valid(Unsubscribe(h, subs[0].closure)) && Dispatch(Unsubscribe(h, subs[0].closure), c) == []
  {
    var h0: Hub<nat> := Hub(map[], map[]);
    var k1, k2 := Closure(c, 1, 100), Closure(c, 2, 101);
    var h1, s1 := Hub(map[c := 100], map[100 := [1]]), [Subscription(k1, false)];
    var h2, s2 := Hub(map[], map[100 := []]), [Subscription(k1, true)];
    var h3, s3 := Hub(map[c := 101], map[100 := [], 101 := [2]]), [Subscription(k1, true), Subscription(k2, false)];
    FirstSubscribes(c, h0, h1, k1);
    assert [] + [Subscription(k1, false)] == s1;
    assert TwoListeners(c)[1..] == [UnsubscribeStep(0), SubscribeStep(c, 2, 101)];
    assert Run(h0, [], TwoListeners(c)) == Run(h1, s1, [UnsubscribeStep(0), SubscribeStep(c, 2, 101)]);
    FirstLeaves(h1, h2, k1);
    assert s1[0 := s1[0].(spent := true)] == s2;
    assert [UnsubscribeStep(0), SubscribeStep(c, 2, 101)][1..] == [SubscribeStep(c, 2, 101)];
    assert Run(h1, s1, [UnsubscribeStep(0), SubscribeStep(c, 2, 101)]) == Run(h2, s2, [SubscribeStep(c, 2, 101)]);
    SecondSubscribes(c, h2, h3, k1, k2);
    assert s2 + [Subscription(k2, false)] == s3;
    assert [SubscribeStep(c, 2, 101)][1..] == [];
    assert Run(h2, s2, [SubscribeStep(c, 2, 101)]) == Run(h3, s3, []);
    OnlySecond(c, s3, k1, k2);
  }

  lemma FirstSubscribes(c: Channel, h0: Hub<nat>, h1: Hub<nat>, k1: Closure<nat>)
    requires h0 == Hub(map[], map[]) && h1 == Hub(map[c := 100], map[100 := [1]]) && k1 == Closure(c, 1, 100)
    ensures Valid(h0) && Subscribe(h0, c, 1, 100) == (h1, k1)
    ensures Proper(h0, [], SubscribeStep(c, 1, 100))
  {
    assert Add([], 1) == [1];
    assert h0.live[c := 100] == h1.live && h0.sets[100 := [1]] == h1.sets;
  }

  lemma FirstLeaves(h1: Hub<nat>, h2: Hub<nat>, k1: Closure<nat>)
    requires h1 == Hub(map[k1.channel := 100], map[100 := [1]]) && h2 == Hub(map[], map[100 := []])
    requires k1 == Closure(k1.channel, 1, 100)
    ensures Unsubscribe(h1, k1) == h2
    ensures Proper(h1, [Subscription(k1, false)], UnsubscribeStep(0))
  {
    assert [1][..0] == [];
    assert Delete([1], 1) == [];
    assert h1.live - {k1.channel} == map[];
  }

  lemma SecondSubscribes(c: Channel, h2: Hub<nat>, h3: Hub<nat>, k1: Closure<nat>, k2: Closure<nat>)
    requires h2 == Hub(map[], map[100 := []]) && h3 == Hub(map[c := 101], map[100 := [], 101 := [2]])
    requires k1 == Closure(c, 1, 100) && k2 == Closure(c, 2, 101)
    ensures Valid(h2) && Subscribe(h2, c, 2, 101) == (h3, k2)
    ensures Proper(h2, [Subscription(k1, true)], SubscribeStep(c, 2, 101))
    ensures Valid(h3) && Dispatch(h3, c) == [2]
    ensures Valid(Unsubscribe(h3, k1)) && Dispatch(Unsubscribe(h3, k1), c) == []
  {
    assert [Subscription(k1, true)][..0] == [];
    assert Active([Subscription(k1, true)], c) == [];
    assert Add([], 2) == [2];
    assert h2.live[c := 101] == h3.live && h2.sets[101 := [2]] == h3.sets;
  }

  lemma OnlySecond(c: Channel, subs: seq<Subscription<nat>>, k1: Closure<nat>, k2: Closure<nat>)
    requires k1 == Closure(c, 1, 100) && k2 == Closure(c, 2, 101)
    requires subs == [Subscription(k1, true), Subscription(k2, false)]
    ensures Active(subs, c) == [2]
  {
    assert subs[..1] == [Subscription(k1, true)] && [Subscription(k1, true)][..0] == [];
    assert Active(subs[..1], c) == [];
  }

  // --------------------------------------------------------------- the code

  /** A JavaScript `Set` of listeners: insertion order, no duplicates. */
  class ListenerSet {
    var members: seq<Listener>

    constructor ()
      ensures members == []
    {
      members := [];
    }

    method Insert(l: Listener)
      modifies this
      ensures members == Add(old(members), l)
    {
      if l !in members { members := members + [l]; }
    }

    method Remove(l: Listener)
      modifies this
      ensures members == Delete(old(members), l)
    {
      members := Delete(members, l);
    }
  }

  class EventHub {
    var listeners: map<Channel, ListenerSet>
    ghost var made: set<ListenerSet>  // every set ever made, live or not

    ghost predicate Owns()
      reads this
    {
      listeners.Values <= made
    }

    /** The hub with its sets' identities kept. */
    ghost function Now(): Hub<ListenerSet>
      reads this, made
    {
      Hub(listeners, map s | s in made :: s.members)
    }

    constructor ()
      ensures Owns() && Now() == Hub(map[], map[])
      ensures made == {}
    {
      listeners := map[];
      made := {};
    }

    /** `subscribe`: the returned closure holds the set itself, not the channel's
        entry. */
    method AddListener(channel: Channel, listener: Listener) returns (k: Closure<ListenerSet>)
      requires Owns()
      modifies this, made
      ensures Owns() && fresh(made - old(made))
      ensures exists s: ListenerSet :: (s in made - old(made) || channel in old(listeners))
                && (Now(), k) == Subscribe(old(Now()), channel, listener, s)
    {
      var s: ListenerSet;
      if channel in listeners {
        s := listeners[channel];
      } else {
        s := new ListenerSet();
        made := made + {s};
        listeners := listeners[channel := s];
      }
      s.Insert(listener);
      k := Closure(channel, listener, s);
      ghost var before := if channel in old(listeners) then old(Now()).sets[s] else [];
      assert s.members == Add(before, listener);
      assert Now().live == old(Now()).live[channel := s];
      assert Now().sets == old(Now()).sets[s := Add(before, listener)];
      assert (Now(), k) == Subscribe(old(Now()), channel, listener, s);
    }

    /** The returned function: it works on the set it captured, and then takes the
        channel's entry away, whatever that is by now, if the set is empty. */
    method Call(k: Closure<ListenerSet>)
      requires Owns() && k.captured in made
      modifies this, made
      ensures Owns() && made == old(made)
      ensures Now() == Unsubscribe(old(Now()), k)
    {
      k.captured.Remove(k.listener);
      if k.captured.members == [] { listeners := listeners - {k.channel}; }
    }

    /** `dispatchLocal`: the listeners it calls, in order. */
    method DispatchLocal(channel: Channel) returns (called: seq<Listener>)
      requires Owns()
      ensures called == Dispatch(Now(), channel)
    {
      if channel !in listeners { return []; }
      var s := listeners[channel];
      called := [];
      for i := 0 to |s.members|
        invariant called == s.members[..i]
      {
        called := called + [s.members[i]];
      }
    }
  }
}
