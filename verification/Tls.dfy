/** Picking the one client key out of all repositories; the sets of repositories come in a map, whose order of iteration
    is arbitrary. */
module Tls {
  import opened Wrappers

  datatype Repo = Repo(clientKey: string, clientCert: string, caCert: string)

  datatype TlsConfig = TlsConfig(key: string, cert: string, ca: string)

  datatype TlsError = MultipleKeys | Unreadable(path: string)

  predicate IsClient(repoSets: map<string, seq<Repo>>, r: Repo) {
    r.clientKey != "" && exists name :: name in repoSets && r in repoSets[name]
  }

  /** Two repositories ask for different keys, certificates or authorities. */
  ghost predicate Conflict(repoSets: map<string, seq<Repo>>) {
    exists r, q :: IsClient(repoSets, r) && IsClient(repoSets, q) && r != q
  }

  ghost predicate NoClient(repoSets: map<string, seq<Repo>>) {
    forall r :: !IsClient(repoSets, r)
  }

  /** Every client among these repositories is the one found. */
  predicate AllAre(repos: seq<Repo>, found: Repo) {
    forall q :: q in repos && q.clientKey != "" ==> q == found
  }

  /** The outcome depends on the map alone, not on the order in which it is gone through: it is a conflict exactly when two
      clients differ, nothing exactly when there is no client, and else the files of the one client. */
  method ExtractTLSKeys(repoSets: map<string, seq<Repo>>, files: map<string, string>)
      returns (r: Result<Option<TlsConfig>, TlsError>)
    ensures r == Failure(MultipleKeys) <==> Conflict(repoSets)
    ensures r == Success(None) <==> NoClient(repoSets)
    ensures !Conflict(repoSets) ==> forall q :: IsClient(repoSets, q) ==>
      r == if q.clientKey !in files then Failure(Unreadable(q.clientKey))
           else if q.clientCert !in files then Failure(Unreadable(q.clientCert))
           else if q.caCert !in files then Failure(Unreadable(q.caCert))
           else Success(Some(TlsConfig(files[q.clientKey], files[q.clientCert], files[q.caCert])))
  {
    var found := Repo("", "", "");
    var remaining := repoSets.Keys;
    while remaining != {}
      invariant remaining <= repoSets.Keys
      invariant found.clientKey == "" ==> found == Repo("", "", "")
      invariant found.clientKey != "" ==> IsClient(repoSets, found)
      invariant forall name :: name in repoSets.Keys - remaining ==> AllAre(repoSets[name], found)
      decreases remaining
    {
      var name :| name in remaining;
      remaining := remaining - {name};
      for i := 0 to |repoSets[name]|
        invariant found.clientKey == "" ==> found == Repo("", "", "")
        invariant found.clientKey != "" ==> IsClient(repoSets, found)
        invariant AllAre(repoSets[name][..i], found)
        invariant forall other :: other in repoSets.Keys - remaining - {name} ==> AllAre(repoSets[other], found)
      {
        var repo := repoSets[name][i];
        assert repoSets[name][..i + 1] == repoSets[name][..i] + [repo];
        if repo.clientKey != "" {
          assert IsClient(repoSets, repo);
          if found.clientKey != "" && (found.clientKey != repo.clientKey || found.clientCert != repo.clientCert
                                       || found.caCert != repo.caCert) {
            return Failure(MultipleKeys);
          }
          found := repo;
        }
      }
      assert repoSets[name][..|repoSets[name]|] == repoSets[name];
    }
    assert forall q :: IsClient(repoSets, q) ==> q == found;
    if found.clientKey == "" {
      return Success(None);
    }
    assert IsClient(repoSets, found);
    if found.clientKey !in files {
      return Failure(Unreadable(found.clientKey));
    }
    if found.clientCert !in files {
      return Failure(Unreadable(found.clientCert));
    }
    if found.caCert !in files {
      return Failure(Unreadable(found.caCert));
    }
    return Success(Some(TlsConfig(files[found.clientKey], files[found.clientCert], files[found.caCert])));
  }
}
