/** Blueprints as YAML. */
module BlueprintYaml {
  // `trim`, `blueprintForYaml` and `stateToYaml`, and what the YAML reader makes
  // of their text.

  import opened Options
  import opened Text
  import opened Json
  import opened Builder
  import opened BuilderGraph
  import opened BlueprintReader
  import opened YamlScalar
  import opened YamlPrinter
  import opened YamlParser
  import opened YamlLayout
  import opened YamlRoundTrip
  import opened YamlLaws

  // ------------------------------------------------------------ plain objects

  function TextJson(o: Option<string>): Json { if o.Some? then Str(o.value) else Undefined }

  function IntJson(o: Option<int>): Json { if o.Some? then Int(o.value) else Undefined }

  function BoolJson(o: Option<bool>): Json { if o.Some? then Bool(o.value) else Undefined }

  function Texts(ss: seq<string>): Json { Arr(seq(|ss|, i requires 0 <= i < |ss| => Str(ss[i]))) }

  /** `trim`: the fields that are not `undefined`. */
  function Kept(fs: seq<Field>): seq<Field> {
    if fs == [] then []
    else Kept(fs[..|fs| - 1]) + (if fs[|fs| - 1].value.Undefined? then [] else [fs[|fs| - 1]])
  }

  method TrimFields(fs: seq<Field>) returns (out: seq<Field>)
    ensures out == Kept(fs)
  {
    out := [];
    for i := 0 to |fs|
      invariant out == Kept(fs[..i])
    {
      assert fs[..i + 1][..i] == fs[..i];
      if !fs[i].value.Undefined? {
        out := out + [fs[i]];
      }
    }
    assert fs[..|fs|] == fs;
  }

  function AppFields(a: AppSpec): seq<Field> {
    [Field("name", Str(a.name)), Field("source", TextJson(a.source)), Field("image", TextJson(a.image)),
     Field("framework", TextJson(a.framework)), Field("port", IntJson(a.port)),
     Field("domains", if a.domains.Some? then Texts(a.domains.value) else Undefined)]
  }

  function DatabaseFields(d: DatabaseSpec): seq<Field> {
    [Field("name", Str(d.name)), Field("engine", TextJson(d.engine)), Field("version", TextJson(d.version))]
  }

  function BucketFields(b: BucketSpec): seq<Field> {
    [Field("name", Str(b.name)), Field("public", BoolJson(b.isPublic)),
     Field("quota", match b.quota
                    case None => Undefined
                    case Some(Number(n)) => Int(n)
                    case Some(Literal(s)) => Str(s))]
  }

  function FunctionFields(f: FunctionSpec): seq<Field> {
    [Field("name", Str(f.name)), Field("runtime", TextJson(f.runtime)), Field("handler", TextJson(f.handler))]
  }

  function CronFields(c: CronSpec): seq<Field> {
    [Field("name", Str(c.name)), Field("schedule", TextJson(c.schedule)), Field("image", TextJson(c.image)),
     Field("command", TextJson(c.command))]
  }

  function RuleFields(r: RuleSpec): seq<Field> {
    [Field("allow", BoolJson(r.allow)), Field("protocol", TextJson(r.protocol)),
     Field("port", TextJson(r.port)), Field("cidr", TextJson(r.cidr))]
  }

  function FirewallFields(f: FirewallSpec): seq<Field> {
    [Field("name", Str(f.name)), Field("defaultInbound", TextJson(f.defaultInbound)),
     Field("rules", if f.rules.Some? then Objects(f.rules.value, RuleFields) else Undefined)]
  }

  function BalancerFields(b: BalancerSpec): seq<Field> {
    [Field("name", Str(b.name)), Field("port", IntJson(b.port)), Field("algorithm", TextJson(b.algorithm)),
     Field("targets", if b.targets.Some? then Texts(b.targets.value) else Undefined),
     Field("domain", TextJson(b.domain)), Field("autoHttps", BoolJson(b.autoHttps))]
  }

  /** Each thing as a trimmed object. */
  function Objects<T>(xs: seq<T>, f: T -> seq<Field>): Json {
    Arr(seq(|xs|, i requires 0 <= i < |xs| => Obj(Kept(f(xs[i])))))
  }

  // --------------------------------------------------------------- the document

  /** The lists of a blueprint under their keys, in the order they are written. */
  function Lists(b: Blueprint): seq<Field> {
    [Field("apps", Objects(Or(b.apps, []), AppFields)),
     Field("databases", Objects(Or(b.databases, []), DatabaseFields)),
     Field("buckets", Objects(Or(b.buckets, []), BucketFields)),
     Field("functions", Objects(Or(b.functions, []), FunctionFields)),
     Field("cron", Objects(Or(b.cron, []), CronFields)),
     Field("firewalls", Objects(Or(b.firewalls, []), FirewallFields)),
     Field("loadBalancers", Objects(Or(b.loadBalancers, []), BalancerFields))]
  }

  function Filled(fs: seq<Field>): seq<Field> {
    if fs == [] then []
    else Filled(fs[..|fs| - 1]) + (if NonEmptySequence(fs[|fs| - 1].value) then [fs[|fs| - 1]] else [])
  }

  function Heading(b: Blueprint): seq<Field> {
    [Field("version", Int(1)), Field("project", Str(b.project))]
    + (if b.region.Some? && b.region.value != "" then [Field("region", Str(b.region.value))] else [])
  }

  function ForYaml(b: Blueprint): Json { Obj(Heading(b) + Filled(Lists(b))) }

  method BlueprintForYaml(b: Blueprint) returns (v: Json)
    ensures v == ForYaml(b)
  {
    var out := [Field("version", Int(1)), Field("project", Str(b.project))];
    if b.region.Some? && b.region.value != "" {
      out := out + [Field("region", Str(b.region.value))];
    }
    var lists := Lists(b);
    assert Filled(lists[..0]) == [];
    for i := 0 to |lists|
      invariant out == Heading(b) + Filled(lists[..i])
    {
      hide Heading, NonEmptySequence;
      assert lists[..i + 1][..i] == lists[..i];
      if NonEmptySequence(lists[i].value) {
        out := out + [lists[i]];
      }
    }
    assert lists[..|lists|] == lists;
    v := Obj(out);
  }

  // ------------------------------------------------- what is read back from it

  predicate Proper(fs: seq<Field>) {
    DistinctKeys(fs) && forall i :: 0 <= i < |fs| ==> WellFormed(fs[i].value)
  }

  lemma ProperPrefix(fs: seq<Field>)
    requires Proper(fs) && fs != []
    ensures Proper(fs[..|fs| - 1]) && WellFormed(fs[|fs| - 1].value)
    ensures !HasKey(fs[..|fs| - 1], fs[|fs| - 1].key)
  {
    hide WellFormed;
  }

  lemma ProperSnoc(fs: seq<Field>, f: Field)
    requires Proper(fs) && !HasKey(fs, f.key) && WellFormed(f.value)
    ensures Proper(fs + [f])
  {
    hide WellFormed;
  }

  lemma {:induction false} KeptProper(fs: seq<Field>)
    requires Proper(fs)
    ensures Proper(Kept(fs)) && forall key :: HasKey(Kept(fs), key) ==> HasKey(fs, key)
  {
    hide WellFormed, Proper, HasKey;
    if fs != [] {
      var front, last := fs[..|fs| - 1], fs[|fs| - 1];
      ProperPrefix(fs);
      KeptProper(front);
      ProperSnoc(Kept(front), last);
      HasKeySnoc(front, last);
      HasKeySnoc(Kept(front), last);
      assert fs == front + [last] && Kept(front) + [] == Kept(front);
    } else {
      NothingProper();
    }
  }

  lemma {:induction false} FilledProper(fs: seq<Field>)
    requires Proper(fs)
    ensures Proper(Filled(fs)) && forall key :: HasKey(Filled(fs), key) ==> HasKey(fs, key)
  {
    hide WellFormed, Proper, HasKey, NonEmptySequence;
    if fs != [] {
      var front, last := fs[..|fs| - 1], fs[|fs| - 1];
      ProperPrefix(fs);
      FilledProper(front);
      ProperSnoc(Filled(front), last);
      HasKeySnoc(front, last);
      HasKeySnoc(Filled(front), last);
      assert fs == front + [last] && Filled(front) + [] == Filled(front);
    } else {
      NothingProper();
    }
  }

  lemma NothingProper()
    ensures Proper([]) && forall key :: !HasKey([], key)
  {}

  lemma HasKeySnoc(fs: seq<Field>, f: Field)
    ensures forall key :: HasKey(fs + [f], key) <==> HasKey(fs, key) || key == f.key
  {
    assert (fs + [f])[|fs|] == f;
    assert forall i :: 0 <= i < |fs| ==> (fs + [f])[i] == fs[i];
  }

  lemma ObjectsProper<T>(xs: seq<T>, f: T -> seq<Field>)
    requires forall i :: 0 <= i < |xs| ==> Proper(f(xs[i]))
    ensures WellFormed(Objects(xs, f)) && |Objects(xs, f).items| == |xs|
  {
    hide Proper;
    forall i | 0 <= i < |xs| ensures WellFormed(Obj(Kept(f(xs[i])))) {
      KeptProper(f(xs[i]));
      ProperObject(Kept(f(xs[i])));
    }
  }

  lemma ProperObject(fs: seq<Field>)
    ensures Proper(fs) <==> WellFormed(Obj(fs))
  {}

  lemma AppsProper(apps: seq<AppSpec>)
    ensures WellFormed(Objects(apps, AppFields))
  {
    hide Objects;
    forall i | 0 <= i < |apps| ensures Proper(AppFields(apps[i])) {
      var a := apps[i];
      assert a.domains.Some? ==> WellFormed(Texts(a.domains.value));
    }
    ObjectsProper(apps, AppFields);
  }

  lemma FirewallsProper(fs: seq<FirewallSpec>)
    ensures WellFormed(Objects(fs, FirewallFields))
  {
    hide Objects;
    forall i | 0 <= i < |fs| ensures Proper(FirewallFields(fs[i])) {
      if fs[i].rules.Some? { ObjectsProper(fs[i].rules.value, RuleFields); }
    }
    ObjectsProper(fs, FirewallFields);
  }

  lemma BalancersProper(bs: seq<BalancerSpec>)
    ensures WellFormed(Objects(bs, BalancerFields))
  {
    hide Objects;
    forall i | 0 <= i < |bs| ensures Proper(BalancerFields(bs[i])) {
      assert bs[i].targets.Some? ==> WellFormed(Texts(bs[i].targets.value));
    }
    ObjectsProper(bs, BalancerFields);
  }

  lemma ListsProper(b: Blueprint)
    ensures Proper(Lists(b))
  {
    hide Objects;
    AppsProper(Or(b.apps, []));
    ObjectsProper(Or(b.databases, []), DatabaseFields);
    ObjectsProper(Or(b.buckets, []), BucketFields);
    ObjectsProper(Or(b.functions, []), FunctionFields);
    ObjectsProper(Or(b.cron, []), CronFields);
    FirewallsProper(Or(b.firewalls, []));
    BalancersProper(Or(b.loadBalancers, []));
  }

  lemma ForYamlProper(b: Blueprint)
    ensures WellFormed(ForYaml(b))
  {
    hide Lists, WellFormed, Filled;
    var h, ls := Heading(b), Lists(b);
    ListsProper(b);
    FilledProper(ls);
    HeadingProper(b);
    ListKeys(b);
    ProperConcat(h, Filled(ls));
    ProperObject(h + Filled(ls));
  }

  lemma HeadingProper(b: Blueprint)
    ensures Proper(Heading(b))
    ensures forall key :: HasKey(Heading(b), key) ==> key in ["version", "project", "region"]
  {}

  lemma ListKeys(b: Blueprint)
    ensures forall key :: HasKey(Lists(b), key) ==>
      key in ["apps", "databases", "buckets", "functions", "cron", "firewalls", "loadBalancers"]
  {}

  lemma ProperConcat(a: seq<Field>, c: seq<Field>)
    requires Proper(a) && Proper(c) && forall key :: HasKey(a, key) ==> !HasKey(c, key)
    ensures Proper(a + c)
  {
    hide WellFormed;
    forall i, j | 0 <= i < j < |a + c| ensures (a + c)[i].key != (a + c)[j].key {
      if i < |a| <= j {
        assert HasKey(a, a[i].key);
        assert c[j - |a|].key == (a + c)[j].key;
      }
    }
  }

  // ------------------------------------------------- everything is under its key

  lemma {:induction false} LookupKept(fs: seq<Field>, key: string)
    requires DistinctKeys(fs)
    ensures Lookup(Kept(fs), key) == if Lookup(fs, key) == Some(Undefined) then None else Lookup(fs, key)
  {
    hide IndexOfKey, Lookup;
    if fs != [] {
      var front, last := fs[..|fs| - 1], fs[|fs| - 1];
      assert fs == front + [last] && Kept(front) + [] == Kept(front);
      LookupKept(front, key);
      LookupSnoc(front, last, key);
      LookupSnoc(Kept(front), last, key);
      LookupNew(front, last);
    } else {
      LookupNothing(key);
    }
  }

  lemma {:induction false} LookupFilled(fs: seq<Field>, key: string)
    requires DistinctKeys(fs)
    ensures Lookup(Filled(fs), key)
            == if Lookup(fs, key).Some? && NonEmptySequence(Lookup(fs, key).value) then Lookup(fs, key) else None
  {
    hide IndexOfKey, Lookup, NonEmptySequence;
    if fs != [] {
      var front, last := fs[..|fs| - 1], fs[|fs| - 1];
      assert fs == front + [last] && Filled(front) + [] == Filled(front);
      LookupFilled(front, key);
      LookupSnoc(front, last, key);
      LookupSnoc(Filled(front), last, key);
      LookupNew(front, last);
    } else {
      LookupNothing(key);
    }
  }

  lemma LookupNothing(key: string)
    ensures Lookup([], key) == None
  {}

  lemma LookupNew(fs: seq<Field>, f: Field)
    requires DistinctKeys(fs + [f])
    ensures Lookup(fs, f.key) == None
  {
    assert (fs + [f])[|fs|] == f && forall i :: 0 <= i < |fs| ==> (fs + [f])[i] == fs[i];
  }

  /** The `i`-th field of a thing, as it is found in its trimmed object. */
  lemma Found(fs: seq<Field>, i: nat)
    requires DistinctKeys(fs) && i < |fs|
    ensures At(Obj(Kept(fs)), fs[i].key) == if fs[i].value == Undefined then None else Some(fs[i].value)
  {
    hide IndexOfKey, Lookup, Kept;
    LookupKept(fs, fs[i].key);
    LookupAt(fs, i);
  }

  lemma TextsRead(v: Json, key: string, ss: seq<string>)
    requires At(v, key) == Some(Texts(ss))
    ensures ListAt(v, key, ReadText) == Some(ss)
  {
    hide At;
    assert ListAt(v, key, ReadText).value == ss;
  }

  lemma ObjectsRead<T>(v: Json, key: string, xs: seq<T>, f: T -> seq<Field>, read: Json -> T)
    requires At(v, key) == Some(Objects(xs, f))
    requires forall i :: 0 <= i < |xs| ==> read(Obj(Kept(f(xs[i])))) == xs[i]
    ensures ListAt(v, key, read) == Some(xs)
  {
    hide At, Kept;
    assert ListAt(v, key, read).value == xs;
  }

  lemma AppIsRead(a: AppSpec)
    ensures ReadApp(Obj(Kept(AppFields(a)))) == a
  {
    hide Kept, At, ListAt;
    var fs := AppFields(a);
    Found(fs, 0);
    Found(fs, 1);
    Found(fs, 2);
    Found(fs, 3);
    Found(fs, 4);
    Found(fs, 5);
    NoListAt(Obj(Kept(fs)), "domains", ReadText);
    if a.domains.Some? { TextsRead(Obj(Kept(fs)), "domains", a.domains.value); }
  }

  lemma NoListAt<T>(v: Json, key: string, read: Json -> T)
    ensures At(v, key) == None ==> ListAt(v, key, read) == None
  {}

  lemma DatabaseIsRead(d: DatabaseSpec)
    ensures ReadDatabase(Obj(Kept(DatabaseFields(d)))) == d
  {
    hide Kept, At;
    var fs := DatabaseFields(d);
    Found(fs, 0);
    Found(fs, 1);
    Found(fs, 2);
  }

  lemma BucketIsRead(b: BucketSpec)
    ensures ReadBucket(Obj(Kept(BucketFields(b)))) == b
  {
    hide Kept, At;
    var fs := BucketFields(b);
    Found(fs, 0);
    Found(fs, 1);
    Found(fs, 2);
  }

  lemma FunctionIsRead(f: FunctionSpec)
    ensures ReadFunction(Obj(Kept(FunctionFields(f)))) == f
  {
    hide Kept, At;
    var fs := FunctionFields(f);
    Found(fs, 0);
    Found(fs, 1);
    Found(fs, 2);
  }

  lemma CronIsRead(c: CronSpec)
    ensures ReadCron(Obj(Kept(CronFields(c)))) == c
  {
    hide Kept, At;
    var fs := CronFields(c);
    Found(fs, 0);
    Found(fs, 1);
    Found(fs, 2);
    Found(fs, 3);
  }

  lemma RuleIsRead(r: RuleSpec)
    ensures ReadRule(Obj(Kept(RuleFields(r)))) == r
  {
    hide Kept, At;
    var fs := RuleFields(r);
    Found(fs, 0);
    Found(fs, 1);
    Found(fs, 2);
    Found(fs, 3);
  }

  lemma FirewallIsRead(f: FirewallSpec)
    ensures ReadFirewall(Obj(Kept(FirewallFields(f)))) == f
  {
    hide Kept, At, ListAt, RuleFields, ReadRule;
    var fs := FirewallFields(f);
    Found(fs, 0);
    Found(fs, 1);
    Found(fs, 2);
    NoListAt(Obj(Kept(fs)), "rules", ReadRule);
    if f.rules.Some? {
      var rules := f.rules.value;
      forall i | 0 <= i < |rules| ensures ReadRule(Obj(Kept(RuleFields(rules[i])))) == rules[i] {
        RuleIsRead(rules[i]);
      }
      ObjectsRead(Obj(Kept(fs)), "rules", rules, RuleFields, ReadRule);
    }
  }

  lemma BalancerIsRead(b: BalancerSpec)
    ensures ReadBalancer(Obj(Kept(BalancerFields(b)))) == b
  {
    hide Kept, At, ListAt;
    var fs := BalancerFields(b);
    Found(fs, 0);
    Found(fs, 1);
    Found(fs, 2);
    Found(fs, 3);
    Found(fs, 4);
    Found(fs, 5);
    NoListAt(Obj(Kept(fs)), "targets", ReadText);
    if b.targets.Some? { TextsRead(Obj(Kept(fs)), "targets", b.targets.value); }
  }

  /** What stands under a list's key in the document. */
  lemma ListFound(b: Blueprint, i: nat)
    requires i < 7
    ensures var f := Lists(b)[i];
      At(ForYaml(b), f.key) == if NonEmptySequence(f.value) then Some(f.value) else None
  {
    hide IndexOfKey, Lookup, Filled, NonEmptySequence, Objects;
    var ls := Lists(b);
    LookupJoined(Heading(b), Filled(ls), ls[i].key);
    LookupFilled(ls, ls[i].key);
    LookupAt(ls, i);
    NotInHeading(b, ls[i].key);
  }

  lemma LookupAbsent(fs: seq<Field>, key: string)
    requires !HasKey(fs, key)
    ensures Lookup(fs, key) == None
  {
    if IndexOfKey(fs, key) < |fs| { assert HasKey(fs, key); }
  }

  lemma NotInHeading(b: Blueprint, key: string)
    requires key != "version" && key != "project" && key != "region"
    ensures Lookup(Heading(b), key) == None
  {
    hide HasKey, Lookup;
    HeadingProper(b);
    LookupAbsent(Heading(b), key);
  }

  lemma HeadingFound(b: Blueprint)
    ensures At(ForYaml(b), "version") == Some(Int(1)) && At(ForYaml(b), "project") == Some(Str(b.project))
    ensures TextAt(ForYaml(b), "region") == OrNone(b.region)
  {
    hide IndexOfKey, Lookup, Filled, Lists;
    var h, more := Heading(b), Filled(Lists(b));
    HeadingProper(b);
    LookupJoined(h, more, "version");
    LookupJoined(h, more, "project");
    LookupJoined(h, more, "region");
    LookupAt(h, 0);
    LookupAt(h, 1);
    if |h| > 2 {
      LookupAt(h, 2);
    } else {
      LookupAbsent(h, "region");
      ListsProper(b);
      ListKeys(b);
      LookupAbsent(Lists(b), "region");
      LookupFilled(Lists(b), "region");
    }
  }

  lemma ListRead<T>(
    b: Blueprint, i: nat, key: string, list: Option<seq<T>>, f: T -> seq<Field>, read: Json -> T)
    requires i < 7 && Lists(b)[i] == Field(key, Objects(Or(list, []), f))
    requires forall j :: 0 <= j < |Or(list, [])| ==> read(Obj(Kept(f(Or(list, [])[j])))) == Or(list, [])[j]
    ensures ListAt(ForYaml(b), key, read) == Listed(list)
  {
    hide At, Lists, ForYaml, Kept;
    var xs := Or(list, []);
    ListFound(b, i);
    if xs == [] {
      assert !NonEmptySequence(Objects(xs, f));
      NoListAt(ForYaml(b), key, read);
    } else {
      assert NonEmptySequence(Objects(xs, f));
      ObjectsRead(ForYaml(b), key, xs, f, read);
    }
  }

  /** Whatever the blueprint, the document written for it holds every field of it under
      its key, every rule of a firewall included; only empty lists and an empty region
      are missing. */
  lemma BlueprintIsRead(b: Blueprint)
    ensures ReadBlueprint(ForYaml(b)) == Tidied(b)
    ensures At(ForYaml(b), "version") == Some(Int(1))
  {
    hide At, ForYaml, ListAt, Objects, Kept, Listed,
      AppFields, DatabaseFields, BucketFields, FunctionFields, CronFields, FirewallFields, BalancerFields,
      ReadApp, ReadDatabase, ReadBucket, ReadFunction, ReadCron, ReadFirewall, ReadBalancer;
    HeadingFound(b);
    forall a ensures ReadApp(Obj(Kept(AppFields(a)))) == a { AppIsRead(a); }
    forall d ensures ReadDatabase(Obj(Kept(DatabaseFields(d)))) == d { DatabaseIsRead(d); }
    forall u ensures ReadBucket(Obj(Kept(BucketFields(u)))) == u { BucketIsRead(u); }
    forall f ensures ReadFunction(Obj(Kept(FunctionFields(f)))) == f { FunctionIsRead(f); }
    forall c ensures ReadCron(Obj(Kept(CronFields(c)))) == c { CronIsRead(c); }
    forall w ensures ReadFirewall(Obj(Kept(FirewallFields(w)))) == w { FirewallIsRead(w); }
    forall l ensures ReadBalancer(Obj(Kept(BalancerFields(l)))) == l { BalancerIsRead(l); }
    ListRead(b, 0, "apps", b.apps, AppFields, ReadApp);
    ListRead(b, 1, "databases", b.databases, DatabaseFields, ReadDatabase);
    ListRead(b, 2, "buckets", b.buckets, BucketFields, ReadBucket);
    ListRead(b, 3, "functions", b.functions, FunctionFields, ReadFunction);
    ListRead(b, 4, "cron", b.cron, CronFields, ReadCron);
    ListRead(b, 5, "firewalls", b.firewalls, FirewallFields, ReadFirewall);
    ListRead(b, 6, "loadBalancers", b.loadBalancers, BalancerFields, ReadBalancer);
  }

  // ------------------------------------------------------------ and in its place

  lemma {:induction false} KeptInOrder(fs: seq<Field>)
    requires Distinct(KeysOf(fs))
    ensures InOrder(Kept(fs), KeysOf(fs))
  {
    hide InOrder;
    if fs != [] {
      var front, last := fs[..|fs| - 1], fs[|fs| - 1];
      assert KeysOf(fs) == KeysOf(front) + [last.key];
      assert forall i :: 0 <= i < |front| ==> KeysOf(front)[i] == KeysOf(fs)[i];
      KeptInOrder(front);
      InOrderSnoc(Kept(front), KeysOf(front), last);
      assert Kept(front) + [] == Kept(front);
    } else {
      assert KeysOf(fs) == [] && Kept(fs) == [];
      NothingInOrder();
    }
  }

  lemma {:induction false} FilledInOrder(fs: seq<Field>)
    requires Distinct(KeysOf(fs))
    ensures InOrder(Filled(fs), KeysOf(fs))
  {
    hide InOrder, NonEmptySequence;
    if fs != [] {
      var front, last := fs[..|fs| - 1], fs[|fs| - 1];
      assert KeysOf(fs) == KeysOf(front) + [last.key];
      assert forall i :: 0 <= i < |front| ==> KeysOf(front)[i] == KeysOf(fs)[i];
      FilledInOrder(front);
      InOrderSnoc(Filled(front), KeysOf(front), last);
      assert Filled(front) + [] == Filled(front);
    } else {
      assert KeysOf(fs) == [] && Filled(fs) == [];
      NothingInOrder();
    }
  }

  lemma NothingInOrder()
    ensures InOrder([], [])
  {}

  lemma AppInOrder(a: AppSpec)
    ensures InOrder(Kept(AppFields(a)), ["name", "source", "image", "framework", "port", "domains"])
  {
    hide InOrder, Kept, Objects, Texts;
    assert KeysOf(AppFields(a)) == ["name", "source", "image", "framework", "port", "domains"];
    KeptInOrder(AppFields(a));
  }

  lemma DatabaseInOrder(d: DatabaseSpec)
    ensures InOrder(Kept(DatabaseFields(d)), ["name", "engine", "version"])
  {
    hide InOrder, Kept, Objects, Texts;
    assert KeysOf(DatabaseFields(d)) == ["name", "engine", "version"];
    KeptInOrder(DatabaseFields(d));
  }

  lemma BucketInOrder(u: BucketSpec)
    ensures InOrder(Kept(BucketFields(u)), ["name", "public", "quota"])
  {
    hide InOrder, Kept, Objects, Texts;
    assert KeysOf(BucketFields(u)) == ["name", "public", "quota"];
    KeptInOrder(BucketFields(u));
  }

  lemma FunctionInOrder(f: FunctionSpec)
    ensures InOrder(Kept(FunctionFields(f)), ["name", "runtime", "handler"])
  {
    hide InOrder, Kept, Objects, Texts;
    assert KeysOf(FunctionFields(f)) == ["name", "runtime", "handler"];
    KeptInOrder(FunctionFields(f));
  }

  lemma CronInOrder(c: CronSpec)
    ensures InOrder(Kept(CronFields(c)), ["name", "schedule", "image", "command"])
  {
    hide InOrder, Kept, Objects, Texts;
    assert KeysOf(CronFields(c)) == ["name", "schedule", "image", "command"];
    KeptInOrder(CronFields(c));
  }

  lemma FirewallInOrder(w: FirewallSpec)
    ensures InOrder(Kept(FirewallFields(w)), ["name", "defaultInbound", "rules"])
  {
    hide InOrder, Kept, Objects, Texts;
    assert KeysOf(FirewallFields(w)) == ["name", "defaultInbound", "rules"];
    KeptInOrder(FirewallFields(w));
  }

  lemma RuleInOrder(r: RuleSpec)
    ensures InOrder(Kept(RuleFields(r)), ["allow", "protocol", "port", "cidr"])
  {
    hide InOrder, Kept, Objects, Texts;
    assert KeysOf(RuleFields(r)) == ["allow", "protocol", "port", "cidr"];
    KeptInOrder(RuleFields(r));
  }

  lemma BalancerInOrder(l: BalancerSpec)
    ensures InOrder(Kept(BalancerFields(l)), ["name", "port", "algorithm", "targets", "domain", "autoHttps"])
  {
    hide InOrder, Kept, Objects, Texts;
    assert KeysOf(BalancerFields(l)) == ["name", "port", "algorithm", "targets", "domain", "autoHttps"];
    KeptInOrder(BalancerFields(l));
  }

  /** The keys of every kind of thing stand in the order in which they are written. */
  lemma ThingsInOrder(
    a: AppSpec, d: DatabaseSpec, u: BucketSpec, f: FunctionSpec, c: CronSpec, w: FirewallSpec, r: RuleSpec,
    l: BalancerSpec)
    ensures InOrder(Kept(AppFields(a)), ["name", "source", "image", "framework", "port", "domains"])
    ensures InOrder(Kept(DatabaseFields(d)), ["name", "engine", "version"])
    ensures InOrder(Kept(BucketFields(u)), ["name", "public", "quota"])
    ensures InOrder(Kept(FunctionFields(f)), ["name", "runtime", "handler"])
    ensures InOrder(Kept(CronFields(c)), ["name", "schedule", "image", "command"])
    ensures InOrder(Kept(FirewallFields(w)), ["name", "defaultInbound", "rules"])
    ensures InOrder(Kept(RuleFields(r)), ["allow", "protocol", "port", "cidr"])
    ensures InOrder(Kept(BalancerFields(l)), ["name", "port", "algorithm", "targets", "domain", "autoHttps"])
  {
    hide InOrder, Kept, AppFields, DatabaseFields, BucketFields, FunctionFields, CronFields, FirewallFields,
      RuleFields, BalancerFields;
    AppInOrder(a);
    DatabaseInOrder(d);
    BucketInOrder(u);
    FunctionInOrder(f);
    CronInOrder(c);
    FirewallInOrder(w);
    RuleInOrder(r);
    BalancerInOrder(l);
  }

  /** So do those of the document: heading first, then the lists. */
  lemma DocumentInOrder(b: Blueprint)
    ensures ForYaml(b).Obj?
    ensures InOrder(ForYaml(b).fields,
      ["version", "project", "region",
       "apps", "databases", "buckets", "functions", "cron", "firewalls", "loadBalancers"])
  {
    hide InOrder, Filled, Objects;
    var top := ["version", "project", "region"];
    var keys := ["apps", "databases", "buckets", "functions", "cron", "firewalls", "loadBalancers"];
    assert KeysOf(Lists(b)) == keys;
    FilledInOrder(Lists(b));
    HeadingInOrder(b);
    InOrderJoined(Heading(b), top, Filled(Lists(b)), keys);
    assert top + keys == ["version", "project", "region",
      "apps", "databases", "buckets", "functions", "cron", "firewalls", "loadBalancers"];
  }

  lemma HeadingInOrder(b: Blueprint)
    ensures InOrder(Heading(b), ["version", "project", "region"])
  {
    var keys := ["version", "project", "region"];
    assert keys[Place(keys, "version")] == "version" && keys[Place(keys, "project")] == "project";
    assert keys[0] == "version" && keys[1] == "project" && keys[2] == "region";
  }

  // -------------------------------------------------------------- the canvas' text

  function YamlOf(s: State): string { ToYaml(ForYaml(StateToBlueprint(s))) }

  /** `stateToYaml`: the text of an object in which everything on the canvas is found
      under its key. */
  method StateToYaml(s: State) returns (text: string)
    ensures text == YamlOf(s)
    ensures exists v :: text == ToYaml(v) && ReadBlueprint(v) == Tidied(StateToBlueprint(s))
              && At(v, "version") == Some(Int(1))
  {
    hide ToYaml, ForYaml, ReadBlueprint, Tidied, At;
    var v := BlueprintForYaml(StateToBlueprint(s));
    text := PrintYaml(v);
    BlueprintIsRead(StateToBlueprint(s));
  }

  // ------------------------------------------------- what the YAML reader makes of it

  lemma {:induction false} FilledIs(fs: seq<Field>)
    ensures Filled(fs) == [] <==> forall i :: 0 <= i < |fs| ==> !NonEmptySequence(fs[i].value)
    ensures forall i :: 0 <= i < |Filled(fs)| ==> NonEmptySequence(Filled(fs)[i].value)
  {
    hide NonEmptySequence;
    if fs != [] {
      FilledIs(fs[..|fs| - 1]);
      assert fs == fs[..|fs| - 1] + [fs[|fs| - 1]];
    }
  }

  /** No app, database, bucket, function, job, firewall or balancer. */
  predicate NothingListed(b: Blueprint) {
    && Or(b.apps, []) == [] && Or(b.databases, []) == [] && Or(b.buckets, []) == []
    && Or(b.functions, []) == [] && Or(b.cron, []) == [] && Or(b.firewalls, []) == []
    && Or(b.loadBalancers, []) == []
  }

  lemma FilledLists(b: Blueprint)
    ensures Filled(Lists(b)) == [] <==> NothingListed(b)
  {
    hide Filled;
    var ls := Lists(b);
    FilledIs(ls);
    assert NonEmptySequence(ls[0].value) <==> Or(b.apps, []) != [];
    assert NonEmptySequence(ls[1].value) <==> Or(b.databases, []) != [];
    assert NonEmptySequence(ls[2].value) <==> Or(b.buckets, []) != [];
    assert NonEmptySequence(ls[3].value) <==> Or(b.functions, []) != [];
    assert NonEmptySequence(ls[4].value) <==> Or(b.cron, []) != [];
    assert NonEmptySequence(ls[5].value) <==> Or(b.firewalls, []) != [];
    assert NonEmptySequence(ls[6].value) <==> Or(b.loadBalancers, []) != [];
  }

  predicate OneLineHeading(b: Blueprint) {
    OneLine(b.project) && (b.region.Some? ==> OneLine(b.region.value))
  }

  /** An object of scalars survives exactly when its texts are on one line. */
  lemma ScalarsSurvive(fs: seq<Field>)
    requires forall i :: 0 <= i < |fs| ==> IsScalar(fs[i].value) && OneLine(fs[i].key) && fs[i].key != PROTO
    ensures Survives(Obj(fs)) <==> forall i :: 0 <= i < |fs| ==> Clean(fs[i].value)
  {
    assert CleanFields(fs) <==> forall i :: 0 <= i < |fs| ==> Clean(fs[i].value);
    assert forall i :: 0 <= i < |fs| ==> NoProto(fs[i].value) && Shaped(fs[i].value);
    assert NoProtoFields(fs);
  }

  lemma HeadingKeys(b: Blueprint)
    ensures var fs := Heading(b); forall i :: 0 <= i < |fs| ==>
      IsScalar(fs[i].value) && OneLine(fs[i].key) && fs[i].key != PROTO
  {}

  lemma HeadingSurvives(b: Blueprint)
    ensures Survives(Obj(Heading(b))) <==> OneLineHeading(b)
  {
    hide Survives;
    var fs := Heading(b);
    HeadingKeys(b);
    ScalarsSurvive(fs);
    assert fs[1] == Field("project", Str(b.project));
    assert |fs| > 2 ==> fs[2] == Field("region", Str(b.region.value));
  }

  lemma ListedIsLost(fs: seq<Field>, i: nat)
    requires i < |fs| && NonEmptySequence(fs[i].value)
    ensures !Survives(Obj(fs))
  {}

  /** A blueprint written as YAML is read back as itself exactly when it lists
      nothing: a single app, job or firewall is enough to lose it. */
  lemma BlueprintBackExactly(b: Blueprint)
    ensures FromYaml(ToYaml(ForYaml(b))) == ForYaml(b) <==> NothingListed(b) && OneLineHeading(b)
  {
    hide FromYaml, ToYaml, WellFormed, Lists, Filled, Heading, NothingListed, OneLineHeading, Clean, NoProto;
    var h, more := Heading(b), Filled(Lists(b));
    ForYamlProper(b);
    RoundTripExactly(ForYaml(b));
    FilledLists(b);
    FilledIs(Lists(b));
    if more == [] {
      assert h + more == h;
      HeadingSurvives(b);
    } else {
      assert (h + more)[|h|] == more[0];
      ListedIsLost(h + more, |h|);
    }
  }

  // ------------------------------------------------------------- the whole canvas

  lemma {:induction false} NoneCollected<T>(nodes: seq<Node>, f: Node -> Option<T>)
    ensures Collect(nodes, f) == [] <==> forall i :: 0 <= i < |nodes| ==> f(nodes[i]).None?
  {
    if nodes != [] {
      NoneCollected(nodes[..|nodes| - 1], f);
      assert nodes == nodes[..|nodes| - 1] + [nodes[|nodes| - 1]];
    }
  }

  lemma {:induction false} AppsAbsent(nodes: seq<Node>, all: seq<Node>, edges: seq<Edge>)
    ensures AppsBack(nodes, all, edges) == [] <==> forall i :: 0 <= i < |nodes| ==> !nodes[i].body.App?
  {
    hide AppBack, HostsOf;
    if nodes != [] {
      AppsAbsent(nodes[..|nodes| - 1], all, edges);
      assert nodes == nodes[..|nodes| - 1] + [nodes[|nodes| - 1]];
    }
  }

  lemma {:induction false} BalancersAbsent(nodes: seq<Node>, all: seq<Node>, edges: seq<Edge>)
    ensures BalancersBack(nodes, all, edges) == []
      <==> forall i :: 0 <= i < |nodes| ==> !nodes[i].body.Balancer?
  {
    hide BalancerBack, AppNamesOf;
    if nodes != [] {
      BalancersAbsent(nodes[..|nodes| - 1], all, edges);
      assert nodes == nodes[..|nodes| - 1] + [nodes[|nodes| - 1]];
    }
  }

  lemma ListedExactly(s: State)
    ensures NothingListed(StateToBlueprint(s)) <==> OnlyDomains(s.nodes)
  {
    hide AppsBack, BalancersBack, Collect;
    AppsAbsent(s.nodes, s.nodes, s.edges);
    BalancersAbsent(s.nodes, s.nodes, s.edges);
    NoneCollected(s.nodes, DatabaseBack);
    NoneCollected(s.nodes, BucketBack);
    NoneCollected(s.nodes, FunctionBack);
    NoneCollected(s.nodes, CronBack);
    NoneCollected(s.nodes, FirewallBack);
  }

  /** What the builder writes can be read back exactly while nothing but domains is
      on the canvas. */
  lemma CanvasBackExactly(s: State)
    ensures FromYaml(YamlOf(s)) == ForYaml(StateToBlueprint(s))
      <==> OnlyDomains(s.nodes) && OneLine(s.project) && (s.region.Some? ==> OneLine(s.region.value))
  {
    hide FromYaml, ToYaml, ForYaml, NothingListed, AppsBack, BalancersBack, Collect, OnlyDomains;
    var b := StateToBlueprint(s);
    BlueprintBackExactly(b);
    ListedExactly(s);
    assert OneLine("my-project") && OneLine("");
  }
}
