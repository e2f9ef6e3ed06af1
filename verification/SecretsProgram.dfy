/** The loops of secrets.go and utils.go, proved against the functions of Secrets. */
module SecretsProgram {
  import opened Options
  import opened Secrets

  /**
   removeVolume and removeVolumeMount on a slice's backing array: the kept elements are compacted to
   the front, and what lies behind them stays as it was.
   */
  method RemoveInPlace<T>(nameOf: T -> string, name: string, a: array<T>) returns (n: nat)
    modifies a
    ensures n <= a.Length && a[..n] == Others(nameOf, name, old(a[..]))
    ensures a[n..] == old(a[..])[n..]
  {
    ghost var before := a[..];
    n := 0;
    for i := 0 to a.Length
      invariant n <= i
      invariant a[..n] == Others(nameOf, name, before[..i])
      invariant a[n..] == before[n..]
    {
      assert before[..i + 1][..i] == before[..i];
      assert a[i] == a[n..][i - n] == before[i];
      if nameOf(a[i]) != name {
        var v := a[i];
        a[n] := v;
        n := n + 1;
        assert a[n..] == before[n - 1..][1..];
      }
    }
    assert before[..a.Length] == before;
  }

  // ----- sort.Strings, by its contract

  lemma {:induction false} StringLeTotal(a: string, b: string)
    ensures StringLe(a, b) || StringLe(b, a)
  {
    if a != "" && b != "" && a[0] == b[0] {
      StringLeTotal(a[1..], b[1..]);
    }
  }

  lemma {:induction false} StringLeTransitive(a: string, b: string, c: string)
    requires StringLe(a, b) && StringLe(b, c)
    ensures StringLe(a, c)
  {
    if a != "" && a[0] == b[0] && b[0] == c[0] {
      StringLeTransitive(a[1..], b[1..], c[1..]);
    }
  }

  function Insert(s: seq<string>, x: string): seq<string> {
    if s == [] || StringLe(x, s[0]) then [x] + s else [s[0]] + Insert(s[1..], x)
  }

  lemma {:induction false} InsertKeeps(s: seq<string>, x: string)
    ensures multiset(Insert(s, x)) == multiset(s) + multiset{x}
  {
    if s != [] && !StringLe(x, s[0]) {
      InsertKeeps(s[1..], x);
      assert s == [s[0]] + s[1..];
    }
  }

  lemma {:induction false} InsertSorts(s: seq<string>, x: string)
    requires Sorted(s)
    ensures Sorted(Insert(s, x))
  {
    var r := Insert(s, x);
    if s == [] {
    } else if StringLe(x, s[0]) {
      forall j | 0 <= j < |s| ensures StringLe(x, s[j]) {
        if j > 0 { StringLeTransitive(x, s[0], s[j]); }
      }
    } else {
      StringLeTotal(x, s[0]);
      InsertSorts(s[1..], x);
      InsertKeeps(s[1..], x);
      forall j | 0 < j < |r| ensures StringLe(s[0], r[j]) {
        assert r[j] == Insert(s[1..], x)[j - 1] && r[j] in multiset(Insert(s[1..], x));
        if r[j] != x {
          assert r[j] in multiset(s[1..]);
          var k :| 0 <= k < |s[1..]| && s[1..][k] == r[j];
          assert s[k + 1] == r[j];
        }
      }
    }
  }

  method SortStrings(s: seq<string>) returns (t: seq<string>)
    ensures Sorted(t) && multiset(t) == multiset(s)
  {
    t := [];
    for i := 0 to |s|
      invariant Sorted(t) && multiset(t) == multiset(s[..i])
    {
      InsertKeeps(t, s[i]);
      InsertSorts(t, s[i]);
      assert s[..i + 1] == s[..i] + [s[i]];
      t := Insert(t, s[i]);
    }
    assert s[..|s|] == s;
  }

  // ----- The deployment object

  class DeploymentObject {
    const name: string
    var pullSecrets: seq<string>
    var volumes: seq<Volume>
    var containers: seq<Container>

    constructor (name: string, pullSecrets: seq<string>, volumes: seq<Volume>, containers: seq<Container>)
      ensures State() == Deployment(name, pullSecrets, volumes, containers)
    {
      this.name := name;
      this.pullSecrets, this.volumes, this.containers := pullSecrets, volumes, containers;
    }

    function State(): Deployment
      reads this
    {
      Deployment(name, pullSecrets, volumes, containers)
    }

    /** The loop over the requested secrets; it stops at the first that does not exist. */
    method Classify(secrets: seq<string>, existing: map<string, Secret>)
      returns (projections: seq<Projection>, missing: Option<string>)
      modifies this`pullSecrets
      ensures missing.None? <==> AllPresent(secrets, existing)
      ensures missing.None? ==>
                && projections == Projections(secrets, existing)
                && pullSecrets == old(pullSecrets) + Pulled(secrets, existing)
      ensures missing.Some? ==>
                exists k :: 0 <= k < |secrets| && secrets[k] == missing.value && missing.value !in existing
                            && AllPresent(secrets[..k], existing)
                            && pullSecrets == old(pullSecrets) + Pulled(secrets[..k], existing)
    {
      projections := [];
      for i := 0 to |secrets|
        invariant AllPresent(secrets[..i], existing)
        invariant projections == Projections(secrets[..i], existing)
        invariant pullSecrets == old(pullSecrets) + Pulled(secrets[..i], existing)
      {
        var secretName := secrets[i];
        if secretName !in existing {
          assert secrets[i] in secrets;
          return projections, Some(secretName);
        }
        assert secrets[..i + 1] == secrets[..i] + [secretName] && secrets[..i + 1][..i] == secrets[..i];
        match existing[secretName].kind {
          case DockerConfig | DockerConfigJson =>
            pullSecrets := pullSecrets + [secretName];
          case Other =>
            projections := projections + [Projection(Some(secretName), existing[secretName].keys)];
        }
      }
      assert secrets[..|secrets|] == secrets;
      missing := None;
    }

    /** ConfigureSecrets. On an error only the pull secrets before the missing one have been added. */
    method ConfigureSecrets(service: string, secrets: seq<string>, existing: map<string, Secret>)
      returns (missing: Option<string>)
      modifies this
      ensures missing.None? <==> AllPresent(secrets, existing)
      ensures missing.None? ==> State() == Configured(service, secrets, existing, old(State()))
      ensures missing.Some? ==>
                && State() == old(State()).(pullSecrets := pullSecrets)
                && exists k :: 0 <= k < |secrets| && secrets[k] == missing.value && missing.value !in existing
                               && AllPresent(secrets[..k], existing)
                               && pullSecrets == old(pullSecrets) + Pulled(secrets[..k], existing)
    {
      var projections;
      projections, missing := Classify(secrets, existing);
      if missing.Some? {
        return;
      }
      var volumeName := VolumeName(service);
      volumes := Others(VolumeNames(), volumeName, volumes);
      if |projections| > 0 {
        volumes := volumes + [Volume(volumeName, Some(projections))];
      }
      var updated := [];
      for i := 0 to |containers|
        invariant containers == old(containers) && |updated| == i
        invariant forall j :: 0 <= j < i ==> updated[j] == Mounted(service, projections, containers[j])
      {
        var container := containers[i];
        container := container.(mounts := Others(MountNames(), volumeName, container.mounts));
        if |projections| > 0 {
          container := container.(mounts := container.mounts + [Mount(volumeName, true, MOUNT_PATH)]);
        }
        updated := updated + [container];
      }
      containers := updated;
      assert updated == MountAll(service, projections, old(containers));
    }

    /** ReadFunctionSecretsSpec, where its volume, if there is one, is a projected one. */
    method ReadFunctionSecretsSpec() returns (secrets: seq<string>)
      requires Collected(State()).Some?
      ensures Sorted(secrets) && multiset(secrets) == multiset(Collected(State()).value)
    {
      secrets := [];
      for i := 0 to |pullSecrets|
        invariant secrets == pullSecrets[..i]
      {
        secrets := secrets + [pullSecrets[i]];
      }
      var volumeName := VolumeName(name);
      var sources := [];
      var i := FirstNamed(volumes, volumeName);
      if i < |volumes| {
        sources := volumes[i].projected.value;
      }
      for k := 0 to |sources|
        invariant secrets == pullSecrets + SecretNames(sources[..k])
      {
        assert sources[..k + 1][..k] == sources[..k];
        if sources[k].secret.Some? {
          secrets := secrets + [sources[k].secret.value];
        }
      }
      assert sources[..|sources|] == sources;
      secrets := SortStrings(secrets);
    }
  }

  /** The pair in use: what is read after configuring is the sorted list of both sorts of secret. */
  method ConfigureThenRead(d: DeploymentObject, secrets: seq<string>, existing: map<string, Secret>)
    returns (read: seq<string>)
    requires AllPresent(secrets, existing)
    modifies d
    ensures Sorted(read) && multiset(read) == multiset(old(d.pullSecrets)) + multiset(secrets)
  {
    ReadAfterConfigure(secrets, existing, d.State());
    var missing := d.ConfigureSecrets(d.name, secrets, existing);
    read := d.ReadFunctionSecretsSpec();
  }
}
