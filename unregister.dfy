/**
 * `unregister`: remove a repository from the configuration. The code keeps a repository
 * when its name differs from the one given AND its provider equals the one given, so
 * besides the named repository it also drops every repository of another provider. The
 * filter is modelled as written (`KeptAsWritten`, used by `Unregister`), next to the
 * filter that removes only the named repository of the given provider (`Kept`).
 */
module Unregister {
  import opened Config

  /** The filter of `unregister` as written: `name != repository && provider == provider`. */
  predicate KeepAsWritten(repo: RepoConfig, repository: string, provider: Provider) {
    repo.name != repository && repo.provider == provider
  }

  /** The repositories `unregister` keeps, in their original order. */
  function KeptAsWritten(repos: seq<RepoConfig>, repository: string, provider: Provider): seq<RepoConfig>
    decreases |repos|
  {
    if repos == [] then []
    else (if KeepAsWritten(repos[0], repository, provider) then [repos[0]] else [])
         + KeptAsWritten(repos[1..], repository, provider)
  }

  /** A repository survives exactly when it was registered and passes the filter. */
  lemma {:induction false} KeptAsWrittenMembers(repos: seq<RepoConfig>, repository: string, provider: Provider, r: RepoConfig)
    ensures r in KeptAsWritten(repos, repository, provider)
        <==> r in repos && r.name != repository && r.provider == provider
    decreases |repos|
  {
    if repos != [] {
      KeptAsWrittenMembers(repos[1..], repository, provider, r);
      assert repos == [repos[0]] + repos[1..];
    }
  }

  /** Filtering commutes with concatenation, so the kept repositories keep their relative order. */
  lemma {:induction false} KeptAsWrittenAppend(a: seq<RepoConfig>, b: seq<RepoConfig>, repository: string, provider: Provider)
    ensures KeptAsWritten(a + b, repository, provider)
         == KeptAsWritten(a, repository, provider) + KeptAsWritten(b, repository, provider)
    decreases |a|
  {
    if a == [] {
      assert a + b == b;
    } else {
      var head := if KeepAsWritten(a[0], repository, provider) then [a[0]] else [];
      assert (a + b)[0] == a[0];
      assert (a + b)[1..] == a[1..] + b;
      assert KeptAsWritten(a + b, repository, provider) == head + KeptAsWritten(a[1..] + b, repository, provider);
      KeptAsWrittenAppend(a[1..], b, repository, provider);
    }
  }

  /** There are never more kept repositories than registered ones. */
  lemma {:induction false} KeptAsWrittenShrinks(repos: seq<RepoConfig>, repository: string, provider: Provider)
    ensures |KeptAsWritten(repos, repository, provider)| <= |repos|
    decreases |repos|
  {
    if repos != [] {
      KeptAsWrittenShrinks(repos[1..], repository, provider);
    }
  }

  /**
   * The discrepancy: unregistering repository "a" of GitHub also drops "b" of GitLab,
   * which was not named.
   */
  lemma DropsOtherProviders()
    ensures var b := RepoConfigNew(Gitlab, "b");
      var repos := [RepoConfigNew(Github, "a"), b];
      KeptAsWritten(repos, "a", Github) == [] && b !in KeptAsWritten(repos, "a", Github)
  {
    var b := RepoConfigNew(Gitlab, "b");
    var repos := [RepoConfigNew(Github, "a"), b];
    assert repos[1..] == [b] && [b][1..] == [];
    assert !KeepAsWritten(repos[0], "a", Github);
    assert !KeepAsWritten(b, "a", Github);
    assert KeptAsWritten([b], "a", Github) == [] + KeptAsWritten([], "a", Github) == [];
    assert KeptAsWritten(repos, "a", Github) == [] + KeptAsWritten([b], "a", Github);
  }

  /** The evidently intended filter: drop only the repository with this name and provider. */
  function Kept(repos: seq<RepoConfig>, repository: string, provider: Provider): seq<RepoConfig>
    decreases |repos|
  {
    if repos == [] then []
    else (if repos[0].name == repository && repos[0].provider == provider then [] else [repos[0]])
         + Kept(repos[1..], repository, provider)
  }

  /**
   * The intended filter removes exactly the named repository of the given provider and
   * keeps every other one, of either provider.
   */
  lemma {:induction false} KeptMembers(repos: seq<RepoConfig>, repository: string, provider: Provider, r: RepoConfig)
    ensures r in Kept(repos, repository, provider)
        <==> r in repos && !(r.name == repository && r.provider == provider)
    decreases |repos|
  {
    if repos != [] {
      KeptMembers(repos[1..], repository, provider, r);
      assert repos == [repos[0]] + repos[1..];
    }
  }

  /**
   * `unregister`: replace `cfg.repos` by the repositories the filter keeps; the version
   * is untouched. Storing the file is not modelled.
   */
  method Unregister(cfg: McaiWorkersConfig, repository: string, provider: Provider)
    modifies cfg
    ensures cfg.repos == KeptAsWritten(old(cfg.repos), repository, provider)
    ensures cfg.version == old(cfg.version)
  {
    var repos := KeptAsWritten(cfg.repos, repository, provider);
    cfg.repos := repos;
  }

  /**
   * After unregistering, no repository with that name and provider remains, the count has
   * not grown, and every repository left was registered before.
   */
  lemma UnregisterRemovesNamed(repos: seq<RepoConfig>, repository: string, provider: Provider)
    ensures forall r :: r in KeptAsWritten(repos, repository, provider) ==>
      r in repos && !(r.name == repository && r.provider == provider)
    ensures |KeptAsWritten(repos, repository, provider)| <= |repos|
  {
    forall r | r in KeptAsWritten(repos, repository, provider)
      ensures r in repos && !(r.name == repository && r.provider == provider)
    {
      KeptAsWrittenMembers(repos, repository, provider, r);
    }
    KeptAsWrittenShrinks(repos, repository, provider);
  }
}
