/** The replica reconcile. */
module ScaleApp {
  // The agent's replica reconcile: bring an app's replica containers to the wanted
  // number, on a Docker engine that does what it is told.

  import opened Options
  import opened Text

  /** A container by its name: the app its label names, its image, its network. */
  datatype Container = Container(app: Option<string>, image: Option<string>, network: Option<string>)

  type Engine = map<string, Container>

  /** Whether the containers are as wanted, or there was no image to make them of. */
  datatype Outcome = Scaled(engine: Engine) | NoImage(engine: Engine)

  function ReplicaName(base: string, i: nat): string { base + "-" + NatText(i) }

  function Desired(base: string, n: nat): (names: seq<string>)
    ensures |names| == n
    ensures forall i :: 0 <= i < n ==> names[i] == ReplicaName(base, i)
  {
    if n == 0 then [] else Desired(base, n - 1) + [ReplicaName(base, n - 1)]
  }

  predicate IsReplica(base: string, name: string) { base + "-" <= name }

  /** What listing by label gives, in whatever order. */
  ghost predicate Lists(engine: Engine, app: string, existing: seq<string>) {
    && (forall name :: name in existing <==> name in engine && engine[name].app == Some(app))
    && (forall i, j :: 0 <= i < j < |existing| ==> existing[i] != existing[j])
  }

  function TemplateImage(engine: Engine, existing: seq<string>): Option<string> {
    if existing == [] then None
    else if existing[0] in engine && engine[existing[0]].image.Some? then engine[existing[0]].image
    else TemplateImage(engine, existing[1..])
  }

  function TemplateNetwork(engine: Engine, existing: seq<string>): Option<string> {
    if existing == [] then None
    else if existing[0] in engine && engine[existing[0]].network.Some? then engine[existing[0]].network
    else TemplateNetwork(engine, existing[1..])
  }

  function Count(replicas: int): nat { if replicas < 0 then 0 else replicas }

  predicate Excess(base: string, existing: seq<string>, desired: seq<string>, name: string) {
    name in existing && IsReplica(base, name) && name !in desired
  }

  function WithoutExcess(engine: Engine, base: string, existing: seq<string>, desired: seq<string>): Engine {
    map name | name in engine && !Excess(base, existing, desired, name) :: engine[name]
  }

  predicate Missing(existing: seq<string>, desired: seq<string>, name: string) {
    name in desired && name !in existing
  }

  function WithMissing(engine: Engine, existing: seq<string>, desired: seq<string>, made: Container): Engine {
    map name | name in engine.Keys + (set d | d in desired) && (name in engine || Missing(existing, desired, name)) ::
      if Missing(existing, desired, name) then made else engine[name]
  }

  /** `scale_app` */
  function Reconciled(engine: Engine, app: string, base: string, replicas: int, existing: seq<string>): Outcome {
    var desired := Desired(base, Count(replicas));
    var kept := WithoutExcess(engine, base, existing, desired);
    var image := TemplateImage(engine, existing);
    if desired == [] then Scaled(kept)
    else if image == None then NoImage(kept)
    else Scaled(WithMissing(kept, existing, desired, Container(Some(app), image, TemplateNetwork(engine, existing))))
  }

  class Docker {
    var containers: Engine

    constructor (engine: Engine)
      ensures containers == engine
    {
      containers := engine;
    }

    method Remove(name: string)
      modifies this
      ensures containers == old(containers) - {name}
    {
      containers := containers - {name};
    }

    /** `run_container`: replace whatever has that name. */
    method Run(name: string, c: Container)
      modifies this
      ensures containers == old(containers)[name := c]
    {
      Remove(name);
      containers := containers[name := c];
    }

    method ScaleContainers(app: string, base: string, replicas: int, existing: seq<string>) returns (ok: bool)
      requires Lists(containers, app, existing)
      modifies this
      ensures Reconciled(old(containers), app, base, replicas, existing)
              == if ok then Scaled(containers) else NoImage(containers)
    {
      ghost var engine := containers;
      var image, network := TemplateImage(containers, existing), TemplateNetwork(containers, existing);
      var desired := Desired(base, Count(replicas));
      for i := 0 to |existing|
        invariant containers == WithoutExcess(engine, base, existing[..i], desired)
      {
        RemoveNext(engine, base, existing, desired, i);
        if IsReplica(base, existing[i]) && existing[i] !in desired { Remove(existing[i]); }
      }
      assert existing[..|existing|] == existing;
      if desired == [] { return true; }
      if image == None { return false; }
      ghost var kept := containers;
      var made := Container(Some(app), image, network);
      assert kept == WithMissing(kept, existing, desired[..0], made);
      for i := 0 to |desired|
        invariant containers == WithMissing(kept, existing, desired[..i], made)
      {
        CreateNext(kept, existing, desired, made, i);
        if desired[i] in existing { continue; }
        Run(desired[i], made);
      }
      assert desired[..|desired|] == desired;
      return true;
    }
  }

  lemma RemoveNext(engine: Engine, base: string, existing: seq<string>, desired: seq<string>, i: nat)
    requires i < |existing|
    ensures var now := WithoutExcess(engine, base, existing[..i], desired);
      WithoutExcess(engine, base, existing[..i + 1], desired)
      == if IsReplica(base, existing[i]) && existing[i] !in desired then now - {existing[i]} else now
  {
    assert existing[..i + 1] == existing[..i] + [existing[i]];
  }

  lemma CreateNext(kept: Engine, existing: seq<string>, desired: seq<string>, made: Container, i: nat)
    requires i < |desired|
    ensures var now := WithMissing(kept, existing, desired[..i], made);
      WithMissing(kept, existing, desired[..i + 1], made)
      == if desired[i] in existing then now else now[desired[i] := made]
  {
    assert desired[..i + 1] == desired[..i] + [desired[i]];
  }

  // ------------------------------------------------------------------ properties

  /** Different replicas have different names. */
  lemma NamesDiffer(base: string, i: nat, j: nat)
    requires ReplicaName(base, i) == ReplicaName(base, j)
    ensures i == j
  {
    var a, b := ReplicaName(base, i), ReplicaName(base, j);
    assert a[|base| + 1..] == NatText(i) && b[|base| + 1..] == NatText(j);
    ParseOfNatText(i);
    ParseOfNatText(j);
  }

  /** The app's containers that carry the replica prefix. */
  function Replicas(engine: Engine, app: string, base: string): set<string> {
    set name | name in engine && engine[name].app == Some(app) && IsReplica(base, name)
  }

  lemma {:induction false} CountOfDesired(base: string, n: nat)
    ensures |(set d | d in Desired(base, n))| == n
  {
    if n > 0 {
      CountOfDesired(base, n - 1);
      var last, front := ReplicaName(base, n - 1), Desired(base, n - 1);
      if last in front {
        var i :| 0 <= i < |front| && front[i] == last;
        NamesDiffer(base, i, n - 1);
      }
      assert (set d | d in Desired(base, n)) == (set d | d in front) + {last};
    }
  }

  lemma DesiredAreReplicas(base: string, n: nat)
    ensures forall d :: d in Desired(base, n) ==> IsReplica(base, d)
  {
    forall i | 0 <= i < n ensures base + "-" <= Desired(base, n)[i] {}
  }

  /** After a successful call the app's replicas are exactly base-0 to base-(n-1),
      n of them. */
  lemma ScaledExactly(engine: Engine, app: string, base: string, replicas: int, existing: seq<string>)
    requires Lists(engine, app, existing)
    requires Reconciled(engine, app, base, replicas, existing).Scaled?
    ensures var after := Reconciled(engine, app, base, replicas, existing).engine;
      && Replicas(after, app, base) == (set d | d in Desired(base, Count(replicas)))
      && |Replicas(after, app, base)| == Count(replicas)
  {
    hide IsReplica;
    var desired := Desired(base, Count(replicas));
    CountOfDesired(base, Count(replicas));
    DesiredAreReplicas(base, Count(replicas));
    var after := Reconciled(engine, app, base, replicas, existing).engine;
    forall name ensures name in Replicas(after, app, base) <==> name in desired {
      if name in desired {
        assert name in after;
      }
    }
    assert Replicas(after, app, base) == (set d | d in desired);
  }

  /** Whatever the outcome, a container that is neither one of the app's excess
      replicas nor stands in the place of a missing one is left as it was. */
  lemma OthersUntouched(engine: Engine, app: string, base: string, replicas: int, existing: seq<string>, name: string)
    requires Lists(engine, app, existing)
    ensures var desired, after := Desired(base, Count(replicas)),
                                  Reconciled(engine, app, base, replicas, existing).engine;
      name in engine && !Excess(base, existing, desired, name) && !Missing(existing, desired, name) ==>
        name in after && after[name] == engine[name]
  {}

  /** A second call changes nothing, whatever it finds and however it ends. */
  lemma SecondCallUnchanged(
    engine: Engine, app: string, base: string, replicas: int, existing: seq<string>, again: seq<string>)
    requires Lists(engine, app, existing)
    requires var after := Reconciled(engine, app, base, replicas, existing).engine; Lists(after, app, again)
    ensures var after := Reconciled(engine, app, base, replicas, existing).engine;
      Reconciled(after, app, base, replicas, again).engine == after
  {
    hide IsReplica;
    var first := Reconciled(engine, app, base, replicas, existing);
    var after, desired := first.engine, Desired(base, Count(replicas));
    forall name | name in after ensures !Excess(base, again, desired, name) {
      if name in again && IsReplica(base, name) { assert name in existing || name in desired; }
    }
    assert WithoutExcess(after, base, again, desired) == after;
    if first.Scaled? {
      forall name ensures !Missing(again, desired, name) {
        if name in desired { assert name in after && after[name].app == Some(app); }
      }
    } else {
      ImageBefore(engine, after, existing, again);
    }
  }

  lemma {:induction false} ImageIs(engine: Engine, existing: seq<string>)
    ensures TemplateImage(engine, existing).Some? <==>
      exists i :: 0 <= i < |existing| && existing[i] in engine && engine[existing[i]].image.Some?
  {
    if existing != [] {
      ImageIs(engine, existing[1..]);
      if exists i :: 0 <= i < |existing| && existing[i] in engine && engine[existing[i]].image.Some? {
        var i :| 0 <= i < |existing| && existing[i] in engine && engine[existing[i]].image.Some?;
        if i > 0 { assert existing[1..][i - 1] == existing[i]; }
      }
    }
  }

  lemma ImageBefore(engine: Engine, after: Engine, existing: seq<string>, again: seq<string>)
    requires forall name :: name in again ==> name in existing
    requires forall name :: name in after ==> name in engine && after[name] == engine[name]
    ensures TemplateImage(after, again).Some? ==> TemplateImage(engine, existing).Some?
  {
    ImageIs(engine, existing);
    ImageIs(after, again);
    if TemplateImage(after, again).Some? {
      var i :| 0 <= i < |again| && again[i] in after && after[again[i]].image.Some?;
      assert again[i] in existing;
      var j :| 0 <= j < |existing| && existing[j] == again[i];
      assert existing[j] in engine && engine[existing[j]].image.Some?;
    }
  }

  /** The first one that there is, if any. */
  ghost predicate FirstOf(values: seq<Option<string>>, first: Option<string>) {
    if first.None? then forall i :: 0 <= i < |values| ==> values[i].None?
    else exists i :: 0 <= i < |values| && values[i] == first && forall j :: 0 <= j < i ==> values[j].None?
  }

  function Images(engine: Engine, existing: seq<string>): seq<Option<string>> {
    seq(|existing|, i requires 0 <= i < |existing| =>
      if existing[i] in engine then engine[existing[i]].image else None)
  }

  function Networks(engine: Engine, existing: seq<string>): seq<Option<string>> {
    seq(|existing|, i requires 0 <= i < |existing| =>
      if existing[i] in engine then engine[existing[i]].network else None)
  }

  lemma FirstOfMore(x: Option<string>, values: seq<Option<string>>, first: Option<string>)
    requires x.None? ==> FirstOf(values, first)
    ensures FirstOf([x] + values, if x.Some? then x else first)
  {
    if x.Some? {
      assert ([x] + values)[0] == x;
    } else if first.Some? {
      var i :| 0 <= i < |values| && values[i] == first && forall j :: 0 <= j < i ==> values[j].None?;
      assert ([x] + values)[i + 1] == first;
    }
  }

  lemma {:induction false} TemplatesAreFirst(engine: Engine, existing: seq<string>)
    ensures FirstOf(Images(engine, existing), TemplateImage(engine, existing))
    ensures FirstOf(Networks(engine, existing), TemplateNetwork(engine, existing))
  {
    if existing != [] {
      hide FirstOf;
      var more := existing[1..];
      TemplatesAreFirst(engine, more);
      var images, networks := Images(engine, existing), Networks(engine, existing);
      assert images == [images[0]] + Images(engine, more);
      assert networks == [networks[0]] + Networks(engine, more);
      FirstOfMore(images[0], Images(engine, more), TemplateImage(engine, more));
      FirstOfMore(networks[0], Networks(engine, more), TemplateNetwork(engine, more));
    }
  }

  /** Every wanted replica is there: the one that was, or a new one labelled with the
      app, made of the first image and put into the first network that the listed
      containers have. */
  lemma ReplicasAreCopies(
    engine: Engine, app: string, base: string, replicas: int, existing: seq<string>, i: nat)
    requires Lists(engine, app, existing) && i < replicas
    requires Reconciled(engine, app, base, replicas, existing).Scaled?
    ensures var after, name := Reconciled(engine, app, base, replicas, existing).engine, base + "-" + NatText(i);
      && name in after && after[name].app == Some(app)
      && (name in existing ==> name in engine && after[name] == engine[name])
      && (name !in existing ==>
            && after[name].image.Some? && FirstOf(Images(engine, existing), after[name].image)
            && FirstOf(Networks(engine, existing), after[name].network))
  {
    hide FirstOf, TemplateImage, TemplateNetwork;
    var desired := Desired(base, Count(replicas));
    TemplatesAreFirst(engine, existing);
    assert desired[i] == ReplicaName(base, i) && desired[i] in desired;
    assert !Excess(base, existing, desired, desired[i]);
  }

  /** It gives up exactly when replicas are wanted and no listed container has an image. */
  lemma GivesUpExactly(engine: Engine, app: string, base: string, replicas: int, existing: seq<string>)
    requires Lists(engine, app, existing)
    ensures Reconciled(engine, app, base, replicas, existing).NoImage? <==>
      replicas > 0 && forall name :: name in existing ==> engine[name].image.None?
  {
    ImageIs(engine, existing);
    assert Desired(base, Count(replicas)) == [] <==> replicas <= 0;
    assert forall i :: 0 <= i < |existing| ==> existing[i] in existing;
  }
}
