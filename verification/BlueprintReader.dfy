/** Blueprints looked up in plain objects. */
module BlueprintReader {
  // A blueprint found in a plain object by looking every field up under its key, and
  // what looking up gives in trimmed and joined objects.

  import opened Options
  import opened Json
  import opened Builder

  // ------------------------------------------------------------------ looking up

  function At(v: Json, key: string): Option<Json> { if v.Obj? then Lookup(v.fields, key) else None }

  function TextAt(v: Json, key: string): Option<string> {
    match At(v, key) case Some(Str(s)) => Some(s) case _ => None
  }

  function IntAt(v: Json, key: string): Option<int> {
    match At(v, key) case Some(Int(n)) => Some(n) case _ => None
  }

  function FlagAt(v: Json, key: string): Option<bool> {
    match At(v, key) case Some(Bool(b)) => Some(b) case _ => None
  }

  function QuotaAt(v: Json, key: string): Option<Quota> {
    match At(v, key)
    case Some(Int(n)) => Some(Number(n))
    case Some(Str(s)) => Some(Literal(s))
    case _ => None
  }

  function ListAt<T>(v: Json, key: string, read: Json -> T): Option<seq<T>> {
    match At(v, key)
    case Some(Arr(items)) => Some(seq(|items|, i requires 0 <= i < |items| => read(items[i])))
    case _ => None
  }

  function NameAt(v: Json, key: string): string { Or(TextAt(v, key), "") }

  function ReadText(v: Json): string { if v.Str? then v.s else "" }

  // ----------------------------------------------------------------- blueprints

  function ReadApp(v: Json): AppSpec {
    AppSpec(NameAt(v, "name"), TextAt(v, "source"), TextAt(v, "image"), TextAt(v, "framework"),
            IntAt(v, "port"), ListAt(v, "domains", ReadText))
  }

  function ReadDatabase(v: Json): DatabaseSpec {
    DatabaseSpec(NameAt(v, "name"), TextAt(v, "engine"), TextAt(v, "version"))
  }

  function ReadBucket(v: Json): BucketSpec {
    BucketSpec(NameAt(v, "name"), FlagAt(v, "public"), QuotaAt(v, "quota"))
  }

  function ReadFunction(v: Json): FunctionSpec {
    FunctionSpec(NameAt(v, "name"), TextAt(v, "runtime"), TextAt(v, "handler"))
  }

  function ReadCron(v: Json): CronSpec {
    CronSpec(NameAt(v, "name"), TextAt(v, "schedule"), TextAt(v, "image"), TextAt(v, "command"))
  }

  function ReadRule(v: Json): RuleSpec {
    RuleSpec(FlagAt(v, "allow"), TextAt(v, "protocol"), TextAt(v, "port"), TextAt(v, "cidr"))
  }

  function ReadFirewall(v: Json): FirewallSpec {
    FirewallSpec(NameAt(v, "name"), TextAt(v, "defaultInbound"), ListAt(v, "rules", ReadRule))
  }

  function ReadBalancer(v: Json): BalancerSpec {
    BalancerSpec(NameAt(v, "name"), IntAt(v, "port"), TextAt(v, "algorithm"), ListAt(v, "targets", ReadText),
                 TextAt(v, "domain"), FlagAt(v, "autoHttps"))
  }

  function ReadBlueprint(v: Json): Blueprint {
    Blueprint(
      NameAt(v, "project"), TextAt(v, "region"),
      ListAt(v, "apps", ReadApp), ListAt(v, "databases", ReadDatabase), ListAt(v, "buckets", ReadBucket),
      ListAt(v, "functions", ReadFunction), ListAt(v, "cron", ReadCron),
      ListAt(v, "firewalls", ReadFirewall), ListAt(v, "loadBalancers", ReadBalancer))
  }

  function Listed<T>(xs: Option<seq<T>>): Option<seq<T>> { if xs == Some([]) then None else xs }

  /** The blueprint without its empty lists and its empty region. */
  function Tidied(b: Blueprint): Blueprint {
    Blueprint(b.project, OrNone(b.region), Listed(b.apps), Listed(b.databases), Listed(b.buckets),
              Listed(b.functions), Listed(b.cron), Listed(b.firewalls), Listed(b.loadBalancers))
  }

  // ------------------------------------------------- looking up in built objects

  lemma {:induction false} LookupSnoc(fs: seq<Field>, f: Field, key: string)
    ensures Lookup(fs + [f], key)
            == if Lookup(fs, key).Some? then Lookup(fs, key) else if f.key == key then Some(f.value) else None
  {
    if fs != [] {
      assert (fs + [f])[1..] == fs[1..] + [f];
      LookupSnoc(fs[1..], f, key);
    }
  }

  lemma {:induction false} LookupJoined(a: seq<Field>, c: seq<Field>, key: string)
    ensures Lookup(a + c, key) == if Lookup(a, key).Some? then Lookup(a, key) else Lookup(c, key)
  {
    if a == [] {
      assert a + c == c;
    } else {
      assert (a + c)[1..] == a[1..] + c;
      LookupJoined(a[1..], c, key);
    }
  }

  /** With distinct keys the `i`-th field is what its key gives. */
  lemma LookupAt(fs: seq<Field>, i: nat)
    requires DistinctKeys(fs) && i < |fs|
    ensures Lookup(fs, fs[i].key) == Some(fs[i].value)
  {}

  // ------------------------------------------------------------- in which order

  function Place(keys: seq<string>, key: string): (i: nat)
    ensures i <= |keys| && (i < |keys| ==> keys[i] == key)
    ensures forall j :: 0 <= j < i ==> keys[j] != key
  {
    if keys == [] || keys[0] == key then 0 else 1 + Place(keys[1..], key)
  }

  /** The fields are some of `keys`, each once, in that order. */
  predicate InOrder(fs: seq<Field>, keys: seq<string>) {
    && (forall i :: 0 <= i < |fs| ==> Place(keys, fs[i].key) < |keys|)
    && forall i, j :: 0 <= i < j < |fs| ==> Place(keys, fs[i].key) < Place(keys, fs[j].key)
  }

  predicate Distinct(keys: seq<string>) { forall i, j :: 0 <= i < j < |keys| ==> keys[i] != keys[j] }

  function KeysOf(fs: seq<Field>): seq<string> { seq(|fs|, i requires 0 <= i < |fs| => fs[i].key) }

  lemma InOrderSnoc(fs: seq<Field>, keys: seq<string>, f: Field)
    requires InOrder(fs, keys) && Distinct(keys + [f.key])
    ensures InOrder(fs, keys + [f.key]) && InOrder(fs + [f], keys + [f.key])
  {
    var more := keys + [f.key];
    forall i | 0 <= i < |fs| ensures Place(more, fs[i].key) == Place(keys, fs[i].key) {
      assert more[Place(keys, fs[i].key)] == fs[i].key;
    }
    assert more[|keys|] == f.key;
  }

  lemma InOrderJoined(a: seq<Field>, ks: seq<string>, c: seq<Field>, ms: seq<string>)
    requires InOrder(a, ks) && InOrder(c, ms) && Distinct(ks + ms)
    ensures InOrder(a + c, ks + ms)
  {
    var more := ks + ms;
    forall i | 0 <= i < |a| ensures Place(more, a[i].key) == Place(ks, a[i].key) {
      assert more[Place(ks, a[i].key)] == a[i].key;
    }
    forall i | 0 <= i < |c| ensures Place(more, c[i].key) == |ks| + Place(ms, c[i].key) {
      assert more[|ks| + Place(ms, c[i].key)] == c[i].key;
    }
  }
}
