/** Which caches a service worker owns and what it may do with a request
    (`sw-cache.ts`). */
module SwCache {
  import opened Wrappers

  const PREFIX := "slothful-shell-"

  function CacheName(scope: string, version: string): string {
    PREFIX + scope + version
  }

  predicate StartsWith(s: string, p: string) {
    p <= s
  }

  predicate IsOwnCache(name: string, scope: string) {
    || (StartsWith(name, PREFIX + scope) && '/' !in name[|PREFIX + scope|..])
    || (StartsWith(name, PREFIX) && '/' !in name)
  }

  datatype Role = Precache | Lazy | Runtime | Shell

  function ShellRole(path: string, scope: string, manifest: map<string, string>, navigate: bool, lazy: map<string, string>): Option<Role> {
    if !StartsWith(path, scope) then None
    else
      var file := path[|scope|..];
      if file in manifest then Some(Precache)
      else if file in lazy then Some(Lazy)
      else if StartsWith(file, "fonts/emoji-sets/") || StartsWith(file, "harper/") then Some(Runtime)
      else if navigate then Some(Shell)
      else None
  }

  predicate IsScope(s: string) {
    s != "" && s[|s| - 1] == '/'
  }

  /** The last slash splits a scoped name in one way only. */
  lemma SplitIsUnique(s1: string, v1: string, s2: string, v2: string)
    requires IsScope(s1) && IsScope(s2) && '/' !in v1 && '/' !in v2 && s1 + v1 == s2 + v2
    ensures s1 == s2 && v1 == v2
  {
    var all := s1 + v1;
    forall i | |s1| <= i < |all| ensures all[i] != '/' {
      assert all[i] == v1[i - |s1|];
    }
    forall i | |s2| <= i < |all| ensures all[i] != '/' {
      assert all[i] == v2[i - |s2|];
    }
    assert all[|s1| - 1] == '/' && all[|s2| - 1] == '/';
    assert s1 == all[..|s1|] && s2 == all[..|s1|];
    assert v1 == all[|s1|..] && v2 == all[|s1|..];
  }

  /** A scoped cache belongs to its own scope only: neither to a sibling, nor to a
      scope it is nested under. */
  lemma OwnedByItsScopeOnly(scope: string, version: string, other: string)
    requires IsScope(scope) && IsScope(other) && '/' !in version
    ensures IsOwnCache(CacheName(scope, version), other) <==> scope == other
  {
    var name := CacheName(scope, version);
    assert name == PREFIX + (scope + version);
    assert name[|PREFIX| + |scope| - 1] == '/';
    if scope == other {
      assert name == (PREFIX + scope) + version;
      assert name[|PREFIX + scope|..] == version;
    } else if StartsWith(name, PREFIX + other) && '/' !in name[|PREFIX + other|..] {
      var rest := name[|PREFIX + other|..];
      assert name == (PREFIX + other) + rest;
      assert scope + version == name[|PREFIX|..] == other + rest;
      SplitIsUnique(scope, version, other, rest);
    }
  }

  lemma NamesAreDistinct(scope: string, version: string, scope2: string, version2: string)
    requires IsScope(scope) && IsScope(scope2) && '/' !in version && '/' !in version2
    requires CacheName(scope, version) == CacheName(scope2, version2)
    ensures scope == scope2 && version == version2
  {
    assert CacheName(scope, version)[|PREFIX|..] == scope + version;
    assert CacheName(scope2, version2)[|PREFIX|..] == scope2 + version2;
    SplitIsUnique(scope, version, scope2, version2);
  }

  /** A name without a scope in it is everybody's. */
  lemma UnscopedBelongsToAll(version: string, scope: string)
    requires '/' !in version
    ensures IsOwnCache(PREFIX + version, scope)
  {
    assert '/' !in PREFIX;
    forall i | 0 <= i < |PREFIX + version| ensures (PREFIX + version)[i] != '/' {
      if i >= |PREFIX| {
        assert (PREFIX + version)[i] == version[i - |PREFIX|];
      } else {
        assert (PREFIX + version)[i] == PREFIX[i];
      }
    }
  }
}
