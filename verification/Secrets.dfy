/** pkg/k8s/secrets.go and pkg/k8s/utils.go: writing a function's secrets into its deployment and reading them back. */
module Secrets {
  import opened Options
  import opened Sums

  datatype Kind = DockerConfig | DockerConfigJson | Other

  datatype Secret = Secret(kind: Kind, keys: seq<string>)

  /** A source of a projected volume; other kinds of source have no secret. */
  datatype Projection = Projection(secret: Option<string>, items: seq<string>)

  datatype Volume = Volume(name: string, projected: Option<seq<Projection>>)

  datatype Mount = Mount(name: string, readOnly: bool, path: string)

  datatype Container = Container(name: string, mounts: seq<Mount>)

  datatype Deployment = Deployment(
    name: string, pullSecrets: seq<string>, volumes: seq<Volume>, containers: seq<Container>)

  const MOUNT_PATH := "/var/openfaas/secrets"

  function VolumeName(service: string): string {
    service + "-projected-secrets"
  }

  /** The elements with another name, in order. */
  function Others<T>(nameOf: T -> string, name: string, s: seq<T>): seq<T> {
    if s == [] then []
    else Others(nameOf, name, s[..|s| - 1]) + if nameOf(s[|s| - 1]) != name then [s[|s| - 1]] else []
  }

  function VolumeNames(): Volume -> string { (v: Volume) => v.name }
  function MountNames(): Mount -> string { (m: Mount) => m.name }

  function Pulled(secrets: seq<string>, existing: map<string, Secret>): seq<string>
    requires forall s :: s in secrets ==> s in existing
  {
    if secrets == [] then []
    else
      var last := secrets[|secrets| - 1];
      Pulled(secrets[..|secrets| - 1], existing) + if existing[last].kind != Other then [last] else []
  }

  function Projections(secrets: seq<string>, existing: map<string, Secret>): seq<Projection>
    requires forall s :: s in secrets ==> s in existing
  {
    if secrets == [] then []
    else
      var last := secrets[|secrets| - 1];
      Projections(secrets[..|secrets| - 1], existing)
      + if existing[last].kind == Other then [Projection(Some(last), existing[last].keys)] else []
  }

  predicate AllPresent(secrets: seq<string>, existing: map<string, Secret>) {
    forall s :: s in secrets ==> s in existing
  }

  function Mounted(service: string, projections: seq<Projection>, c: Container): Container {
    var kept := Others(MountNames(), VolumeName(service), c.mounts);
    c.(mounts := kept + if projections != [] then [Mount(VolumeName(service), true, MOUNT_PATH)] else [])
  }

  function MountAll(service: string, projections: seq<Projection>, cs: seq<Container>): seq<Container> {
    seq(|cs|, i requires 0 <= i < |cs| => Mounted(service, projections, cs[i]))
  }

  /** ConfigureSecrets with every secret present. */
  function Configured(service: string, secrets: seq<string>, existing: map<string, Secret>, d: Deployment): Deployment
    requires AllPresent(secrets, existing)
  {
    var projections := Projections(secrets, existing);
    var kept := Others(VolumeNames(), VolumeName(service), d.volumes);
    d.(pullSecrets := d.pullSecrets + Pulled(secrets, existing),
       volumes := kept + if projections != [] then [Volume(VolumeName(service), Some(projections))] else [],
       containers := MountAll(service, projections, d.containers))
  }

  // ----- Reading back

  /** Go's string order: by bytes, which for UTF-8 is by code points. */
  predicate StringLe(a: string, b: string) {
    a == "" || (b != "" && (a[0] < b[0] || (a[0] == b[0] && StringLe(a[1..], b[1..]))))
  }

  predicate Sorted(s: seq<string>) {
    forall i, j :: 0 <= i < j < |s| ==> StringLe(s[i], s[j])
  }

  /** The secret names of a projected volume's sources. */
  function SecretNames(sources: seq<Projection>): seq<string> {
    if sources == [] then []
    else
      SecretNames(sources[..|sources| - 1])
      + match sources[|sources| - 1].secret case None => [] case Some(n) => [n]
  }

  function FirstNamed(vs: seq<Volume>, name: string): (i: nat)
    ensures i <= |vs|
    ensures i < |vs| ==> vs[i].name == name
    ensures forall j :: 0 <= j < i ==> vs[j].name != name
  {
    if vs == [] || vs[0].name == name then 0 else 1 + FirstNamed(vs[1..], name)
  }

  /** What ReadFunctionSecretsSpec collects before it sorts; None where it dereferences a nil Projected. */
  function Collected(d: Deployment): Option<seq<string>> {
    var i := FirstNamed(d.volumes, VolumeName(d.name));
    if i == |d.volumes| then Some(d.pullSecrets)
    else
      match d.volumes[i].projected
      case None => None
      case Some(sources) => Some(d.pullSecrets + SecretNames(sources))
  }

  lemma {:induction false} NoneLeft<T>(nameOf: T -> string, name: string, s: seq<T>)
    ensures forall x :: x in Others(nameOf, name, s) ==> nameOf(x) != name && x in s
  {
    if s != [] {
      NoneLeft(nameOf, name, s[..|s| - 1]);
    }
  }

  lemma {:induction false} OthersConcat<T>(nameOf: T -> string, name: string, s: seq<T>, t: seq<T>)
    ensures Others(nameOf, name, s + t) == Others(nameOf, name, s) + Others(nameOf, name, t)
  {
    if t == [] {
      assert s + t == s;
    } else {
      OthersConcat(nameOf, name, s, t[..|t| - 1]);
      assert (s + t)[..|s + t| - 1] == s + t[..|t| - 1];
    }
  }

  lemma {:induction false} OthersTwice<T>(nameOf: T -> string, name: string, s: seq<T>)
    ensures Others(nameOf, name, Others(nameOf, name, s)) == Others(nameOf, name, s)
  {
    if s != [] {
      OthersTwice(nameOf, name, s[..|s| - 1]);
      var last := s[|s| - 1];
      if nameOf(last) != name {
        OthersConcat(nameOf, name, Others(nameOf, name, s[..|s| - 1]), [last]);
        assert Others(nameOf, name, [last]) == Others(nameOf, name, []) + [last];
      } else {
        assert Others(nameOf, name, s) == Others(nameOf, name, s[..|s| - 1]);
      }
    }
  }

  lemma SecretNamesPushed(ps: seq<Projection>, p: Projection)
    requires p.secret.Some?
    ensures SecretNames(ps + [p]) == SecretNames(ps) + [p.secret.value]
  {
    assert (ps + [p])[..|ps|] == ps;
  }

  /** The last secret goes to one of the two places. */
  lemma LastSecret(secrets: seq<string>, existing: map<string, Secret>)
    requires AllPresent(secrets, existing) && secrets != []
    ensures var front, last := secrets[..|secrets| - 1], secrets[|secrets| - 1];
            var pulled := Pulled(front, existing);
            var named := SecretNames(Projections(front, existing));
            && (existing[last].kind != Other ==>
                  Pulled(secrets, existing) == pulled + [last] && SecretNames(Projections(secrets, existing)) == named)
            && (existing[last].kind == Other ==>
                  Pulled(secrets, existing) == pulled && SecretNames(Projections(secrets, existing)) == named + [last])
  {
    var front, last := secrets[..|secrets| - 1], secrets[|secrets| - 1];
    if existing[last].kind == Other {
      SecretNamesPushed(Projections(front, existing), Projection(Some(last), existing[last].keys));
      assert Pulled(secrets, existing) == Pulled(front, existing);
    } else {
      assert Projections(secrets, existing) == Projections(front, existing);
    }
  }

  ghost predicate Splits(pulled: seq<string>, named: seq<string>, secrets: seq<string>) {
    multiset(pulled) + multiset(named) == multiset(secrets)
  }

  lemma SplitPushed(pulled: seq<string>, named: seq<string>, pulled': seq<string>, named': seq<string>,
                    secrets: seq<string>)
    requires secrets != [] && Splits(pulled, named, secrets[..|secrets| - 1])
    requires var last := secrets[|secrets| - 1];
             (pulled' == pulled + [last] && named' == named) || (pulled' == pulled && named' == named + [last])
    ensures Splits(pulled', named', secrets)
  {
    var front, last := secrets[..|secrets| - 1], secrets[|secrets| - 1];
    assert front + [last] == secrets;
    MultisetPushed(front, last);
    MultisetPushed(pulled, last);
    MultisetPushed(named, last);
  }

  lemma PresentPrefix(secrets: seq<string>, existing: map<string, Secret>)
    requires AllPresent(secrets, existing) && secrets != []
    ensures AllPresent(secrets[..|secrets| - 1], existing) && secrets[|secrets| - 1] in existing
  {
  }

  /** Each requested secret goes to one of the two places, once. */
  lemma {:induction false} SecretsSplit(secrets: seq<string>, existing: map<string, Secret>)
    requires AllPresent(secrets, existing)
    ensures Splits(Pulled(secrets, existing), SecretNames(Projections(secrets, existing)), secrets)
  {
    if secrets != [] {
      PresentPrefix(secrets, existing);
      var front := secrets[..|secrets| - 1];
      SecretsSplit(front, existing);
      LastSecret(secrets, existing);
      SplitPushed(Pulled(front, existing), SecretNames(Projections(front, existing)),
                  Pulled(secrets, existing), SecretNames(Projections(secrets, existing)), secrets);
    }
  }

  lemma FirstAfterRemoval(d: Deployment, service: string, added: seq<Volume>)
    requires |added| <= 1 && forall v :: v in added ==> v.name == VolumeName(service)
    ensures var kept := Others(VolumeNames(), VolumeName(service), d.volumes);
            FirstNamed(kept + added, VolumeName(service)) == |kept|
  {
    var kept := Others(VolumeNames(), VolumeName(service), d.volumes);
    NoneLeft(VolumeNames(), VolumeName(service), d.volumes);
    var all := kept + added;
    var i := FirstNamed(all, VolumeName(service));
    assert forall j :: 0 <= j < |kept| ==> all[j] in kept;
    if added != [] {
      assert all[|kept|] in added;
    }
  }

  lemma CollectsProjections(secrets: seq<string>, existing: map<string, Secret>, d: Deployment)
    requires AllPresent(secrets, existing)
    ensures Collected(Configured(d.name, secrets, existing, d))
            == Some(d.pullSecrets + Pulled(secrets, existing) + SecretNames(Projections(secrets, existing)))
  {
    var projections := Projections(secrets, existing);
    var name := VolumeName(d.name);
    var added := if projections != [] then [Volume(name, Some(projections))] else [];
    var kept := Others(VolumeNames(), name, d.volumes);
    FirstAfterRemoval(d, d.name, added);
    var volumes := kept + added;
    assert Configured(d.name, secrets, existing, d).volumes == volumes;
    if projections != [] {
      assert volumes[|kept|] == added[0];
    } else {
      var pulled := d.pullSecrets + Pulled(secrets, existing);
      assert SecretNames(projections) == [] && pulled + [] == pulled;
    }
  }

  /**
   Reading after configuring gives back the requested secrets together with the pull secrets that
   were there before, each as often as it was given.
   */
  lemma ReadAfterConfigure(secrets: seq<string>, existing: map<string, Secret>, d: Deployment)
    requires AllPresent(secrets, existing)
    ensures var read := Collected(Configured(d.name, secrets, existing, d));
            && read.Some?
            && multiset(read.value) == multiset(d.pullSecrets) + multiset(secrets)
  {
    CollectsProjections(secrets, existing, d);
    SecretsSplit(secrets, existing);
  }

  /** So it is the inverse that its comment claims exactly when no pull secret was there before. */
  lemma InverseWithoutPriorPullSecrets(secrets: seq<string>, existing: map<string, Secret>, d: Deployment)
    requires AllPresent(secrets, existing)
    ensures var read := Collected(Configured(d.name, secrets, existing, d));
            read.Some? && (multiset(read.value) == multiset(secrets) <==> d.pullSecrets == [])
  {
    ReadAfterConfigure(secrets, existing, d);
    assert |multiset(d.pullSecrets) + multiset(secrets)| == |d.pullSecrets| + |secrets|;
  }

  function CountNamed<T>(nameOf: T -> string, name: string, s: seq<T>): nat {
    if s == [] then 0
    else CountNamed(nameOf, name, s[..|s| - 1]) + if nameOf(s[|s| - 1]) == name then 1 else 0
  }

  lemma {:induction false} NoneCounted<T>(nameOf: T -> string, name: string, s: seq<T>)
    requires forall x :: x in s ==> nameOf(x) != name
    ensures CountNamed(nameOf, name, s) == 0
  {
    if s != [] {
      assert forall x :: x in s[..|s| - 1] ==> x in s;
      assert s[|s| - 1] in s;
      NoneCounted(nameOf, name, s[..|s| - 1]);
    }
  }

  lemma CountPushed<T>(nameOf: T -> string, name: string, s: seq<T>, x: T)
    ensures CountNamed(nameOf, name, s + [x]) == CountNamed(nameOf, name, s) + if nameOf(x) == name then 1 else 0
    ensures Others(nameOf, name, s + [x]) == Others(nameOf, name, s) + if nameOf(x) != name then [x] else []
  {
    assert (s + [x])[..|s|] == s;
  }

  /** Dropping the elements of a name and adding one of that name, if any. */
  lemma Replaced<T>(nameOf: T -> string, name: string, s: seq<T>, added: Option<T>)
    requires added.Some? ==> nameOf(added.value) == name
    ensures var s' := Others(nameOf, name, s) + if added.Some? then [added.value] else [];
            && CountNamed(nameOf, name, s') == (if added.Some? then 1 else 0)
            && Others(nameOf, name, s') == Others(nameOf, name, s)
  {
    var kept := Others(nameOf, name, s);
    NoneLeft(nameOf, name, s);
    NoneCounted(nameOf, name, kept);
    OthersTwice(nameOf, name, s);
    if added.Some? {
      CountPushed(nameOf, name, kept, added.value);
    } else {
      assert kept + [] == kept;
    }
  }

  // ----- What is configured, position by position

  /** t holds the wanted elements of s, in the order of their positions `at`. */
  ghost predicate PicksAt<T>(s: seq<T>, t: seq<T>, wanted: T -> bool, at: seq<int>) {
    && |at| == |t|
    && (forall i, j :: 0 <= i < j < |at| ==> at[i] < at[j])
    && (forall i :: 0 <= i < |at| ==> 0 <= at[i] < |s| && t[i] == s[at[i]])
    && (forall i :: 0 <= i < |s| ==> (i in at <==> wanted(s[i])))
  }

  ghost predicate Picks<T>(s: seq<T>, t: seq<T>, wanted: T -> bool) {
    exists at :: PicksAt(s, t, wanted, at)
  }

  lemma PicksNone<T>(wanted: T -> bool)
    ensures Picks([], [], wanted)
  {
    assert PicksAt([], [], wanted, []);
  }

  lemma PicksAtNext<T>(s: seq<T>, t: seq<T>, wanted: T -> bool, at: seq<int>)
    requires s != [] && PicksAt(s[..|s| - 1], t, wanted, at)
    ensures wanted(s[|s| - 1]) ==> PicksAt(s, t + [s[|s| - 1]], wanted, at + [|s| - 1])
    ensures !wanted(s[|s| - 1]) ==> PicksAt(s, t, wanted, at)
  {
    var front, last := s[..|s| - 1], |s| - 1;
    assert forall i :: 0 <= i < |at| ==> at[i] < last && t[i] == front[at[i]] == s[at[i]];
    assert forall i :: 0 <= i < last ==> s[i] == front[i];
    assert last !in at;
  }

  lemma PicksNext<T>(s: seq<T>, before: seq<T>, t: seq<T>, wanted: T -> bool)
    requires s != [] && Picks(s[..|s| - 1], before, wanted)
    requires t == if wanted(s[|s| - 1]) then before + [s[|s| - 1]] else before
    ensures Picks(s, t, wanted)
  {
    var at :| PicksAt(s[..|s| - 1], before, wanted, at);
    PicksAtNext(s, before, wanted, at);
  }

  function NotNamed<T>(nameOf: T -> string, name: string): T -> bool {
    (x: T) => nameOf(x) != name
  }

  /** Removal by name takes out exactly the elements of that name. */
  lemma {:induction false} OthersPick<T>(nameOf: T -> string, name: string, s: seq<T>)
    ensures Picks(s, Others(nameOf, name, s), NotNamed(nameOf, name))
  {
    if s == [] {
      PicksNone(NotNamed(nameOf, name));
    } else {
      OthersPick(nameOf, name, s[..|s| - 1]);
      PicksNext(s, Others(nameOf, name, s[..|s| - 1]), Others(nameOf, name, s), NotNamed(nameOf, name));
    }
  }

  function HasSecret(): Projection -> bool {
    (p: Projection) => p.secret.Some?
  }

  /** Of a volume's sources just those with a secret are read, in order. */
  lemma {:induction false} SecretNamesExactly(sources: seq<Projection>) returns (named: seq<Projection>)
    ensures Picks(sources, named, HasSecret())
    ensures |SecretNames(sources)| == |named|
    ensures forall i :: 0 <= i < |named| ==> named[i].secret == Some(SecretNames(sources)[i])
  {
    if sources == [] {
      named := [];
      PicksNone(HasSecret());
    } else {
      var last := sources[|sources| - 1];
      var before := SecretNamesExactly(sources[..|sources| - 1]);
      named := if last.secret.Some? then before + [last] else before;
      PicksNext(sources, before, named, HasSecret());
    }
  }

  function ToPull(existing: map<string, Secret>): string -> bool {
    (n: string) => n in existing && (existing[n].kind == DockerConfig || existing[n].kind == DockerConfigJson)
  }

  function ToMount(existing: map<string, Secret>): string -> bool {
    (n: string) => n in existing && existing[n].kind != DockerConfig && existing[n].kind != DockerConfigJson
  }

  /** One source for each named secret, with a path for each of its keys. */
  predicate AllKeysOf(projections: seq<Projection>, names: seq<string>, existing: map<string, Secret>) {
    && |projections| == |names|
    && forall i :: 0 <= i < |names| ==>
         names[i] in existing && projections[i] == Projection(Some(names[i]), existing[names[i]].keys)
  }

  lemma {:induction false} PulledArePicked(secrets: seq<string>, existing: map<string, Secret>)
    requires AllPresent(secrets, existing)
    ensures Picks(secrets, Pulled(secrets, existing), ToPull(existing))
  {
    if secrets == [] {
      PicksNone(ToPull(existing));
    } else {
      PulledArePicked(secrets[..|secrets| - 1], existing);
      LastSecret(secrets, existing);
      PicksNext(secrets, Pulled(secrets[..|secrets| - 1], existing), Pulled(secrets, existing), ToPull(existing));
    }
  }

  lemma {:induction false} MountedArePicked(secrets: seq<string>, existing: map<string, Secret>)
    requires AllPresent(secrets, existing)
    ensures Picks(secrets, SecretNames(Projections(secrets, existing)), ToMount(existing))
  {
    if secrets == [] {
      PicksNone(ToMount(existing));
    } else {
      var before := Projections(secrets[..|secrets| - 1], existing);
      MountedArePicked(secrets[..|secrets| - 1], existing);
      LastSecret(secrets, existing);
      PicksNext(secrets, SecretNames(before), SecretNames(Projections(secrets, existing)), ToMount(existing));
    }
  }

  lemma AllKeysPushed(projections: seq<Projection>, names: seq<string>, name: string, existing: map<string, Secret>)
    requires AllKeysOf(projections, names, existing) && name in existing
    ensures AllKeysOf(projections + [Projection(Some(name), existing[name].keys)], names + [name], existing)
  {
  }

  lemma LastSource(secrets: seq<string>, existing: map<string, Secret>)
    requires AllPresent(secrets, existing) && secrets != []
    ensures var before, last := Projections(secrets[..|secrets| - 1], existing), secrets[|secrets| - 1];
            Projections(secrets, existing)
            == if existing[last].kind == Other then before + [Projection(Some(last), existing[last].keys)] else before
  {
  }

  lemma {:induction false} SourcesHaveAllKeys(secrets: seq<string>, existing: map<string, Secret>)
    requires AllPresent(secrets, existing)
    ensures AllKeysOf(Projections(secrets, existing), SecretNames(Projections(secrets, existing)), existing)
  {
    if secrets != [] {
      var before := Projections(secrets[..|secrets| - 1], existing);
      SourcesHaveAllKeys(secrets[..|secrets| - 1], existing);
      LastSecret(secrets, existing);
      LastSource(secrets, existing);
      AllKeysPushed(before, SecretNames(before), secrets[|secrets| - 1], existing);
    }
  }

  /** Elements of the name replaced by the added ones, behind all others. */
  ghost predicate Replaces<T>(nameOf: T -> string, name: string, s: seq<T>, added: seq<T>, t: seq<T>) {
    |added| <= |t| && t[|t| - |added|..] == added && Picks(s, t[..|t| - |added|], NotNamed(nameOf, name))
  }

  lemma OthersReplaced<T>(nameOf: T -> string, name: string, s: seq<T>, added: seq<T>)
    ensures Replaces(nameOf, name, s, added, Others(nameOf, name, s) + added)
  {
    OthersPick(nameOf, name, s);
    var kept := Others(nameOf, name, s);
    assert (kept + added)[..|kept|] == kept;
  }

  /**
   The docker secrets are appended to the pull secrets, and the others are the sources of one volume
   that each container mounts read-only, each source with all keys of its secret, all in the order
   requested; there is no such volume and no mount when nothing is left to mount.
   */
  lemma ConfiguredExactly(service: string, secrets: seq<string>, existing: map<string, Secret>, d: Deployment)
    returns (pulled: seq<string>, mounted: seq<string>, sources: seq<Projection>)
    requires AllPresent(secrets, existing)
    ensures Picks(secrets, pulled, ToPull(existing)) && Picks(secrets, mounted, ToMount(existing))
    ensures AllKeysOf(sources, mounted, existing)
    ensures var d' := Configured(service, secrets, existing, d);
            var name := service + "-projected-secrets";
            var volumes := if mounted == [] then [] else [Volume(name, Some(sources))];
            var mounts := if mounted == [] then [] else [Mount(name, true, "/var/openfaas/secrets")];
            && d'.name == d.name
            && d'.pullSecrets == d.pullSecrets + pulled
            && Replaces(VolumeNames(), name, d.volumes, volumes, d'.volumes)
            && |d'.containers| == |d.containers|
            && forall i :: 0 <= i < |d.containers| ==>
                 && d'.containers[i].name == d.containers[i].name
                 && Replaces(MountNames(), name, d.containers[i].mounts, mounts, d'.containers[i].mounts)
  {
    PulledArePicked(secrets, existing);
    MountedArePicked(secrets, existing);
    SourcesHaveAllKeys(secrets, existing);
    pulled, sources := Pulled(secrets, existing), Projections(secrets, existing);
    mounted := SecretNames(sources);
    var name := VolumeName(service);
    OthersReplaced(VolumeNames(), name, d.volumes, if mounted == [] then [] else [Volume(name, Some(sources))]);
    forall i | 0 <= i < |d.containers|
      ensures Replaces(MountNames(), name, d.containers[i].mounts,
                       if mounted == [] then [] else [Mount(name, true, MOUNT_PATH)],
                       Mounted(service, sources, d.containers[i]).mounts)
    {
      OthersReplaced(MountNames(), name, d.containers[i].mounts,
                     if mounted == [] then [] else [Mount(name, true, MOUNT_PATH)]);
    }
  }

  /**
   There is one secrets volume and one mount of it in every container, or none of either when
   nothing is mounted; all other volumes and mounts stay, in their order.
   */
  lemma OneSecretsVolume(service: string, secrets: seq<string>, existing: map<string, Secret>, d: Deployment)
    requires AllPresent(secrets, existing)
    ensures var d' := Configured(service, secrets, existing, d);
            var name := VolumeName(service);
            var n := if Projections(secrets, existing) != [] then 1 else 0;
            && CountNamed(VolumeNames(), name, d'.volumes) == n
            && Others(VolumeNames(), name, d'.volumes) == Others(VolumeNames(), name, d.volumes)
            && |d'.containers| == |d.containers|
            && forall i :: 0 <= i < |d.containers| ==>
                 && d'.containers[i].name == d.containers[i].name
                 && CountNamed(MountNames(), name, d'.containers[i].mounts) == n
                 && Others(MountNames(), name, d'.containers[i].mounts)
                     == Others(MountNames(), name, d.containers[i].mounts)
  {
    var name, projections := VolumeName(service), Projections(secrets, existing);
    Replaced(VolumeNames(), name, d.volumes, if projections != [] then Some(Volume(name, Some(projections))) else None);
    forall i | 0 <= i < |d.containers|
      ensures var m := Mounted(service, projections, d.containers[i]).mounts;
              CountNamed(MountNames(), name, m) == (if projections != [] then 1 else 0)
              && Others(MountNames(), name, m) == Others(MountNames(), name, d.containers[i].mounts)
    {
      Replaced(MountNames(), name, d.containers[i].mounts,
               if projections != [] then Some(Mount(name, true, MOUNT_PATH)) else None);
    }
  }

  /** Configuring again changes volumes and mounts no more, but adds the pull secrets again. */
  lemma ConfigureAgain(service: string, secrets: seq<string>, existing: map<string, Secret>, d: Deployment)
    requires AllPresent(secrets, existing)
    ensures var once := Configured(service, secrets, existing, d);
            var twice := Configured(service, secrets, existing, once);
            && twice.volumes == once.volumes && twice.containers == once.containers
            && (twice == once <==> Pulled(secrets, existing) == [])
  {
    OneSecretsVolume(service, secrets, existing, d);
    var once := Configured(service, secrets, existing, d);
    var twice := Configured(service, secrets, existing, once);
    forall i | 0 <= i < |d.containers| ensures twice.containers[i] == once.containers[i] {}
    assert |twice.pullSecrets| == |once.pullSecrets| + |Pulled(secrets, existing)|;
  }
}
