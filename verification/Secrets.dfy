/**
  The credentials of remote entries, and the rules that tie them to a
  configuration.
 */
module Secrets {
  import opened Options
  import opened ConfigRules

  datatype Credentials = Credentials(serverURL: string, certificateName: string,
                                     certificateAPIKey: string, privateKeyAPIKey: string)

  /** Credentials by entry name. */
  type Data = map<string, Credentials>

  predicate Remote(e: Entry) {
    e.source.kind == CERT_WARDEN
  }

  /** Credentials count only for the server and the certificate they were stored for. */
  predicate Fits(key: Option<Credentials>, e: Entry) {
    && key.Some? && e.source.certWarden.Some?
    && key.value.serverURL == e.source.certWarden.value.serverURL
    && key.value.certificateName == e.source.certWarden.value.certificateName
  }

  function Key(secrets: Data, name: string): Option<Credentials> {
    if name in secrets then Some(secrets[name]) else None
  }

  /** A remote entry has both its keys, stored for its own server and certificate. */
  predicate Credentialed(e: Entry, secrets: Data) {
    Remote(e) ==>
      && e.name in secrets
      && secrets[e.name].certificateAPIKey != "" && secrets[e.name].privateKeyAPIKey != ""
      && Fits(Key(secrets, e.name), e)
  }

  ghost predicate AllCredentialed(entries: seq<Entry>, secrets: Data) {
    forall e | e in entries :: Credentialed(e, secrets)
  }

  method ValidateRemoteCredentials(entries: seq<Entry>, secrets: Data) returns (ok: bool)
    ensures ok <==> AllCredentialed(entries, secrets)
  {
    for i := 0 to |entries|
      invariant forall k | 0 <= k < i :: Credentialed(entries[k], secrets)
    {
      if !Credentialed(entries[i], secrets) {
        return false;
      }
    }
    ok := true;
  }

  function RemoteNames(entries: seq<Entry>): set<string> {
    set e | e in entries && Remote(e) :: e.name
  }

  /** The credentials of the remote entries, and no others. */
  function Pruned(entries: seq<Entry>, secrets: Data): Data {
    map n | n in secrets && n in RemoteNames(entries) :: secrets[n]
  }

  method PruneSecrets(entries: seq<Entry>, secrets: Data) returns (pruned: Data)
    ensures pruned == Pruned(entries, secrets)
  {
    pruned := map[];
    for i := 0 to |entries|
      invariant pruned == Pruned(entries[..i], secrets)
    {
      ghost var before := pruned;
      if Remote(entries[i]) && entries[i].name in secrets {
        pruned := pruned[entries[i].name := secrets[entries[i].name]];
      }
      assert entries[..i + 1] == entries[..i] + [entries[i]];
      assert RemoteNames(entries[..i + 1]) == RemoteNames(entries[..i]) + if Remote(entries[i]) then {entries[i].name} else {};
    }
    assert entries[..|entries|] == entries;
  }

  /** The comparison by size and lookup is equality of the two stores. */
  method SecretsEqual(a: Data, b: Data) returns (same: bool)
    ensures same <==> a == b
  {
    if |a| != |b| {
      return false;
    }
    var left := a.Keys;
    while left != {}
      invariant left <= a.Keys
      invariant forall n | n in a && n !in left :: n in b && b[n] == a[n]
    {
      var n :| n in left;
      if n !in b || b[n] != a[n] {
        return false;
      }
      left := left - {n};
    }
    SameSizeSubset(a.Keys, b.Keys);
    same := true;
  }

  lemma SameSizeSubset(a: set<string>, b: set<string>)
    requires a <= b && |a| == |b|
    ensures a == b
  {
    assert b == a + (b - a);
  }

  /**
    Credentials are pruned by the names as they were sent, and checked once
    more under the trimmed names. What is stored is still exactly one set of
    keys per remote entry: two entries whose names trim to the same one are
    refused, so the sent name of a remote entry is its trimmed name.
   */
  lemma StoredSecretsAreTheRemoteOnes(candidate: seq<Entry>, requested: Data)
    requires AllCredentialed(candidate, Pruned(candidate, requested))
    requires NamesDiffer(AllNormalized(candidate))
    requires AllCredentialed(AllNormalized(candidate), Pruned(candidate, requested))
    ensures Pruned(candidate, requested).Keys == RemoteNames(AllNormalized(candidate))
    ensures forall e | e in candidate && Remote(e) :: Normalized(e).name == e.name
  {
    var staged, next := AllNormalized(candidate), Pruned(candidate, requested);
    forall e | e in candidate && Remote(e)
      ensures Normalized(e).name == e.name && Normalized(e) in staged && Remote(Normalized(e))
    {
      SentNameIsTrimmed(candidate, requested, e);
    }
    hide AllNormalized;
    hide Normalized;
    hide NamesDiffer;
    forall n | n in RemoteNames(staged)
      ensures n in next
    {
      var e :| e in staged && Remote(e) && e.name == n;
      assert Credentialed(e, next);
    }
    forall n | n in next
      ensures n in RemoteNames(staged)
    {
      var e :| e in candidate && Remote(e) && e.name == n;
      assert Normalized(e) in staged && Normalized(e).name == n;
    }
  }

  lemma SentNameIsTrimmed(candidate: seq<Entry>, requested: Data, e: Entry)
    requires AllCredentialed(AllNormalized(candidate), Pruned(candidate, requested))
    requires NamesDiffer(AllNormalized(candidate))
    requires e in candidate && Remote(e)
    ensures Normalized(e).name == e.name && Normalized(e) in AllNormalized(candidate) && Remote(Normalized(e))
  {
    var staged, next := AllNormalized(candidate), Pruned(candidate, requested);
    var i :| 0 <= i < |candidate| && candidate[i] == e;
    assert staged[i] == Normalized(e);
    assert Credentialed(staged[i], next);
    var f :| f in candidate && Remote(f) && f.name == Normalized(e).name;
    var j :| 0 <= j < |candidate| && candidate[j] == f;
    assert staged[j] == Normalized(f);
    NormalizedTwice(e);
    assert Normalized(Normalized(e)).name == Normalized(e).name;
    SameNameSameTrim(f, Normalized(e));
    assert staged[j].name == staged[i].name;
    assert i == j;
  }

  lemma SameNameSameTrim(a: Entry, b: Entry)
    requires a.name == b.name
    ensures Normalized(a).name == Normalized(b).name
  {
  }
}
