/** What a sequence of deploys, failures and mismatches can and cannot do to the
    offline copy of the shell. */
module ShellUpdates {
  import opened Wrappers
  import opened ShellInstall
  import SW = SwCache

  /** The hashes of a manifest are fixed by its version; the paths that are lazy in
      some version are manifest paths in none. */
  datatype History = History(scope: string, fixed: string -> Manifest, lazies: set<string>, hash: Bytes -> string)

  ghost predicate Belongs(h: History, d: Deploy) {
    && d.scope == h.scope && SW.IsScope(d.scope) && '/' !in d.version
    && d.manifest == h.fixed(d.version)
    && d.lazy.Keys <= h.lazies && d.manifest.Keys !! h.lazies
    && forall f :: f in d.manifest ==> '?' !in f
  }

  /** The record of a cache, lazy paths aside, is the manifest of its version. */
  ghost predicate Recorded(h: History, m: Manifest, manifest: Manifest) {
    forall f :: f !in h.lazies ==> (f in m <==> f in manifest) && (f in m ==> m[f] == manifest[f])
  }

  /** Stored manifest files hash to their recorded value. */
  ghost predicate Truthful(h: History, c: Cache) {
    c.manifest.Some? ==>
      forall f :: f in c.manifest.value && f !in h.lazies && f in c.files ==> h.hash(c.files[f]) == c.manifest.value[f]
  }

  ghost predicate VersionOk(h: History, st: Storage, d: Deploy) {
    Name(d) in st ==>
      match st[Name(d)].manifest
      case Some(m) => Recorded(h, m, d.manifest)
      case None => st[Name(d)].files == map[]
  }

  /** No install was killed midway. */
  ghost predicate Sound(h: History, st: Storage) {
    && (forall n :: n in st && SW.IsOwnCache(n, h.scope) ==> Truthful(h, st[n]))
    && (forall d: Deploy :: Belongs(h, d) ==> VersionOk(h, st, d))
  }

  // --- choosing ---

  lemma {:induction false} ScanFinds(st: Storage, d: Deploy, order: seq<string>)
    ensures var r := Scan(st, d, order);
            && (r.Some? ==> r.value in st && r.value in order && r.value != Name(d)
                            && SW.IsOwnCache(r.value, d.scope) && st[r.value].manifest.Some?)
            && (r == None ==> forall n :: n in order && n in st && n != Name(d) && SW.IsOwnCache(n, d.scope) ==> st[n].manifest == None)
  {
    if order != [] {
      ScanFinds(st, d, order[1..]);
      assert forall n :: n in order <==> n == order[0] || n in order[1..];
    }
  }

  lemma ChosenIsOurs(h: History, st: Storage, d: Deploy, order: seq<string>)
    requires Belongs(h, d) && Name(d) in st
    ensures var r := Chosen(st, d, order);
            r.Some? ==> r.value in st && SW.IsOwnCache(r.value, h.scope) && st[r.value].manifest.Some?
                        && (r.value != Name(d) ==> st[Name(d)].manifest == None)
    ensures SW.IsOwnCache(Name(d), h.scope)
  {
    ScanFinds(st, d, order);
    SW.OwnedByItsScopeOnly(d.scope, d.version, d.scope);
  }

  lemma OpenKeepsSound(h: History, st: Storage, name: string)
    requires Sound(h, st)
    ensures Sound(h, Open(st, name))
  {
    var r := Open(st, name);
    forall d: Deploy | Belongs(h, d) ensures VersionOk(h, r, d) {
      assert VersionOk(h, st, d);
    }
  }

  // --- one install ---

  /** What the fill leaves at a manifest path is the manifest's file. */
  lemma FilledIsTrue(h: History, st: Storage, d: Deploy, order: seq<string>, net: Net, f: string)
    requires Belongs(h, d) && Sound(h, st) && Name(d) in st && net.hash == h.hash && f in d.manifest
    ensures var filled := Filled(d, st[Name(d)].files, Source_(st, Chosen(st, d, order)), net);
            f in filled ==> h.hash(filled[f]) == d.manifest[f]
  {
    ChosenIsOurs(h, st, d, order);
    assert VersionOk(h, st, d);
    assert f !in h.lazies;
    var old_ := Source_(st, Chosen(st, d, order));
    assert Truthful(h, st[Name(d)]);
    assert old_.Some? ==> Truthful(h, old_.value);
  }

  /** A completed install leaves a truthful record. */
  lemma InstallIsTruthful(h: History, st: Storage, d: Deploy, order: seq<string>, net: Net, carried: map<string, Bytes>, errors: seq<Reason>)
    requires Belongs(h, d) && Sound(h, st) && Name(d) in st && net.hash == h.hash && carried.Keys <= h.lazies
    ensures var filled := Filled(d, st[Name(d)].files, Source_(st, Chosen(st, d, order)), net);
            var r := Completed(st, d, filled, carried, errors);
            Truthful(h, r[Name(d)]) && VersionOk(h, r, d)
  {
    var filled := Filled(d, st[Name(d)].files, Source_(st, Chosen(st, d, order)), net);
    var r := Completed(st, d, filled, carried, errors);
    forall f | f in d.manifest + d.lazy && f !in h.lazies && f in r[Name(d)].files
      ensures h.hash(r[Name(d)].files[f]) == (d.manifest + d.lazy)[f]
    {
      FilledIsTrue(h, st, d, order, net, f);
    }
  }

  /** Every install, completed or not, keeps every stored manifest file true to its
      recorded hash. */
  lemma InstallKeepsSound(h: History, st: Storage, d: Deploy, order: seq<string>, entries: seq<string>, net: Net)
    requires Belongs(h, d) && Sound(h, st) && Lists(entries, d.manifest) && net.hash == h.hash
    ensures Sound(h, Installed(st, d, order, entries, net).0)
  {
    var st1 := Open(st, Name(d));
    OpenKeepsSound(h, st, Name(d));
    ChosenIsOurs(h, st1, d, order);
    var (r, ok) := Installed(st, d, order, entries, net);
    var chosen := Chosen(st1, d, order);
    var old_ := Source_(st1, chosen);
    if ok {
      var carried := if old_.Some? && chosen != Some(Name(d)) then Carried(d, old_) else map[];
      InstallIsTruthful(h, st1, d, order, net, carried, Errors(d, old_, net, entries));
    }
    OthersAsBefore(st, d, order, entries, net);
    RestIsSound(h, st1, r, d);
  }

  /** An install changes files and records of its own cache only. */
  lemma OthersAsBefore(st: Storage, d: Deploy, order: seq<string>, entries: seq<string>, net: Net)
    requires Lists(entries, d.manifest)
    ensures var r := Installed(st, d, order, entries, net).0;
            forall n :: n in r && n != Name(d) ==> n in st && r[n].manifest == st[n].manifest && r[n].files == st[n].files
  {
    ScanFinds(Open(st, Name(d)), d, order);
  }

  lemma RestIsSound(h: History, st: Storage, r: Storage, d: Deploy)
    requires Belongs(h, d) && Sound(h, st) && VersionOk(h, r, d) && (Name(d) in r ==> Truthful(h, r[Name(d)]))
    requires forall n :: n in r && n != Name(d) ==> n in st && r[n].manifest == st[n].manifest && r[n].files == st[n].files
    ensures Sound(h, r)
  {
    forall n | n in r && SW.IsOwnCache(n, h.scope) ensures Truthful(h, r[n]) {
      if n != Name(d) {
        assert Truthful(h, st[n]);
      }
    }
    forall e: Deploy | Belongs(h, e) ensures VersionOk(h, r, e) {
      OthersVersionOk(h, st, r, d, e);
    }
  }

  lemma OthersVersionOk(h: History, st: Storage, r: Storage, d: Deploy, e: Deploy)
    requires Belongs(h, d) && Belongs(h, e) && Sound(h, st) && VersionOk(h, r, d)
    requires forall n :: n in r && n != Name(d) ==> n in st && r[n].manifest == st[n].manifest && r[n].files == st[n].files
    ensures VersionOk(h, r, e)
  {
    assert VersionOk(h, st, e);
    if Name(e) == Name(d) {
      SW.NamesAreDistinct(d.scope, d.version, e.scope, e.version);
    }
  }

  /** A completed install holds every new-manifest file that its chosen old cache
      could serve, with the bytes of the new manifest. */
  lemma NoOfflineFileIsLost(h: History, st: Storage, d: Deploy, order: seq<string>, entries: seq<string>, net: Net)
    requires Belongs(h, d) && Sound(h, st) && Lists(entries, d.manifest) && net.hash == h.hash
    ensures var (r, ok) := Installed(st, d, order, entries, net);
            ok ==> forall f :: f in d.manifest && CouldServe(st, d, order, f) ==>
                     f in r[Name(d)].files && h.hash(r[Name(d)].files[f]) == d.manifest[f]
  {
    var (r, ok) := Installed(st, d, order, entries, net);
    forall f | ok && f in d.manifest && CouldServe(st, d, order, f)
      ensures f in r[Name(d)].files && h.hash(r[Name(d)].files[f]) == d.manifest[f]
    {
      ServedFileIsKept(h, st, d, order, entries, net, f);
    }
  }

  /** The cache the install copies from has the file. */
  predicate CouldServe(st: Storage, d: Deploy, order: seq<string>, f: string) {
    var old_ := Source_(Open(st, Name(d)), Chosen(Open(st, Name(d)), d, order));
    old_.Some? && f in old_.value.files
  }

  lemma ServedFileIsKept(h: History, st: Storage, d: Deploy, order: seq<string>, entries: seq<string>, net: Net, f: string)
    requires Belongs(h, d) && Sound(h, st) && Lists(entries, d.manifest) && net.hash == h.hash
    requires Installed(st, d, order, entries, net).1 && f in d.manifest && CouldServe(st, d, order, f)
    ensures var files := Installed(st, d, order, entries, net).0[Name(d)].files;
            f in files && h.hash(files[f]) == d.manifest[f]
  {
    var st1 := Open(st, Name(d));
    OpenKeepsSound(h, st, Name(d));
    ChosenIsOurs(h, st1, d, order);
    assert VersionOk(h, st1, d);
    assert f !in h.lazies;
    FilledIsTrue(h, st1, d, order, net, f);
    var chosen := Chosen(st1, d, order);
    var old_ := Source_(st1, chosen);
    var filled := Filled(d, st1[Name(d)].files, old_, net);
    if chosen != Some(Name(d)) {
      assert !Losing(d, old_, net, Has(d, chosen, old_, filled), f);
    }
    assert f in filled;
  }

  /** An update of the running version never changes a file the running worker has,
      at no moment of the install. */
  lemma InPlaceTouchesNothing(h: History, st: Storage, d: Deploy, order: seq<string>, net: Net, f: string)
    requires Belongs(h, d) && Sound(h, st) && Name(d) in st && st[Name(d)].manifest.Some?
    requires f in st[Name(d)].files
    ensures var c := st[Name(d)];
            Chosen(st, d, order) == Some(Name(d))
            && PutAt(d, c.files, Some(c), net, f) == FilledAt(d, c.files, Some(c), net, f) == Some(c.files[f])
  {
    assert VersionOk(h, st, d);
    assert f in d.manifest ==> f !in h.lazies;
  }

  /** A failed install leaves every other cache's files and record as they were,
      leaves none of its own, and counts the consecutive failures of this version
      in the cache that survives. */
  lemma FailureLeavesTheSurvivor(h: History, st: Storage, d: Deploy, order: seq<string>, entries: seq<string>, net: Net)
    requires Belongs(h, d) && Sound(h, st) && Lists(entries, d.manifest) && !Installed(st, d, order, entries, net).1
    ensures var r := Installed(st, d, order, entries, net).0;
            var from := Chosen(Open(st, Name(d)), d, order);
            && r.Keys == st.Keys - {Name(d)} && from.Some? && from.value in r && r[from.value].manifest.Some?
            && (forall n :: n in r ==> r[n].files == st[n].files && r[n].manifest == st[n].manifest && r[n].installErrors == st[n].installErrors)
            && (forall n :: n in r && n != from.value ==> r[n] == st[n])
            && r[from.value].failed.Some? && r[from.value].failed.value.version == Name(d)
            && r[from.value].failed.value.attempts ==
                 (if st[from.value].failed.Some? && st[from.value].failed.value.version == Name(d)
                  then st[from.value].failed.value.attempts else 0) + 1
  {
    ChosenIsOurs(h, Open(st, Name(d)), d, order);
  }

  /** Nothing to protect: the first install completes whatever the network does. */
  lemma FirstInstallCompletes(st: Storage, d: Deploy, order: seq<string>, entries: seq<string>, net: Net)
    requires Lists(entries, d.manifest)
    requires forall n :: n in st && (n == Name(d) || SW.IsOwnCache(n, d.scope)) ==> st[n].manifest == None
    ensures Installed(st, d, order, entries, net).1
  {
    ScanFinds(Open(st, Name(d)), d, order);
  }

  // --- serving ---

  datatype Reply = Ok(body: Bytes) | Status(code: nat) | NoNetwork
  datatype Response = Cached(body: Bytes) | FromNetwork(reply: Reply) | Offline

  predicate Stores(role: SW.Role) {
    role.Runtime? || role.Lazy?
  }

  /** `serveShell` for the path `file` with `query` ("" or "?..."). */
  function ServeShell(c: Cache, role: SW.Role, file: string, query: string, navigate: bool, reply: Reply): (Response, Cache) {
    var cached := if role.Precache? then Look(c.files, file) else if Stores(role) then Look(c.files, file + query) else None;
    if cached.Some? && (role.Precache? || role.Lazy?) then (Cached(cached.value), c)
    else
      var c1 := if reply.Ok? && Stores(role) then c.(files := c.files[file + query := reply.body]) else c;
      if cached.Some? then (Cached(cached.value), c1)
      else if !reply.NoNetwork? then (FromNetwork(reply), c1)
      else if navigate && "main.html" in c.files then (Cached(c.files["main.html"]), c1)
      else (Offline, c1)
  }

  predicate IsQuery(q: string) {
    q == "" || q[0] == '?'
  }

  /** Serving never writes a manifest entry: the shell stays what its install hashed. */
  lemma ServingKeepsTheManifest(h: History, d: Deploy, c: Cache, path: string, file: string, query: string, navigate: bool, reply: Reply)
    requires Belongs(h, d) && IsQuery(query) && path == d.scope + file
    requires SW.ShellRole(path, d.scope, d.manifest, navigate, d.lazy).Some?
    ensures var c1 := ServeShell(c, SW.ShellRole(path, d.scope, d.manifest, navigate, d.lazy).value, file, query, navigate, reply).1;
            && (forall f :: f in d.manifest ==> Look(c1.files, f) == Look(c.files, f))
            && c1.manifest == c.manifest
            && (c.manifest.Some? && Recorded(h, c.manifest.value, d.manifest) && Truthful(h, c) ==> Truthful(h, c1))
  {
    assert path[|d.scope|..] == file;
    var role := SW.ShellRole(path, d.scope, d.manifest, navigate, d.lazy).value;
    var c1 := ServeShell(c, role, file, query, navigate, reply).1;
    if Stores(role) {
      assert file !in d.manifest;
      forall f | f in d.manifest ensures f != file + query {
        if query != "" {
          assert (file + query)[|file|] == '?';
        } else {
          assert file + query == file;
        }
      }
    }
  }

  /** A manifest file in the cache is answered from the cache, network or not. */
  lemma OfflineFilesAreServed(d: Deploy, c: Cache, path: string, file: string, query: string, navigate: bool, reply: Reply)
    requires path == d.scope + file && file in d.manifest && file in c.files
    ensures SW.ShellRole(path, d.scope, d.manifest, navigate, d.lazy) == Some(SW.Precache)
    ensures ServeShell(c, SW.Precache, file, query, navigate, reply) == (Cached(c.files[file]), c)
  {
    assert path[|d.scope|..] == file;
  }

  // --- what is trusted unread ---

  /** The bytes an install takes for a manifest file without hashing them: those of
      the chosen cache under an unchanged record, else, when the network has
      none, those already in place. */
  function Unread(d: Deploy, base: map<string, Bytes>, old_: Option<Cache>, net: Net, f: string): Option<Bytes>
    requires f in d.manifest
  {
    if Reusable(old_, f, d.manifest[f]) then Some(old_.value.files[f])
    else if net.fetch(f).None? then Look(base, f)
    else None
  }

  ghost predicate AllTrue(d: Deploy, net: Net, files: map<string, Bytes>) {
    forall f :: f in d.manifest && f in files ==> net.hash(files[f]) == d.manifest[f]
  }

  ghost predicate UnreadTrue(d: Deploy, base: map<string, Bytes>, old_: Option<Cache>, net: Net) {
    forall f :: f in d.manifest && Unread(d, base, old_, net, f).Some? ==>
      net.hash(Unread(d, base, old_, net, f).value) == d.manifest[f]
  }

  /** Every stored manifest file hashes to its record after a completed install
      exactly when everything that was taken unread did. */
  lemma TrueAfterExactly(st: Storage, d: Deploy, order: seq<string>, entries: seq<string>, net: Net)
    requires Lists(entries, d.manifest) && d.manifest.Keys !! d.lazy.Keys
    ensures var (st1, r) := (Open(st, Name(d)), Installed(st, d, order, entries, net));
            r.1 ==> (AllTrue(d, net, r.0[Name(d)].files)
                     <==> UnreadTrue(d, st1[Name(d)].files, Source_(st1, Chosen(st1, d, order)), net))
  {
    var st1 := Open(st, Name(d));
    var old_ := Source_(st1, Chosen(st1, d, order));
    var base := st1[Name(d)].files;
    var (r, ok) := Installed(st, d, order, entries, net);
    if ok {
      forall f | f in d.manifest
        ensures Unread(d, base, old_, net, f).Some? ==> Look(r[Name(d)].files, f) == Unread(d, base, old_, net, f)
        ensures f in r[Name(d)].files && Unread(d, base, old_, net, f).None? ==> net.hash(r[Name(d)].files[f]) == d.manifest[f]
      {
        StoredAt(st1, d, old_, net, f);
        assert f !in d.lazy;
      }
      forall f | UnreadTrue(d, base, old_, net) && f in d.manifest && f in r[Name(d)].files
        ensures net.hash(r[Name(d)].files[f]) == d.manifest[f]
      {
        assert Unread(d, base, old_, net, f).Some? || Unread(d, base, old_, net, f).None?;
      }
    }
  }

  /** A filled manifest file was taken unread, or verified. */
  lemma StoredAt(st: Storage, d: Deploy, old_: Option<Cache>, net: Net, f: string)
    requires Name(d) in st && f in d.manifest
    ensures var (base, filled) := (st[Name(d)].files, Filled(d, st[Name(d)].files, old_, net));
            && (Unread(d, base, old_, net, f).Some? ==> Look(filled, f) == Unread(d, base, old_, net, f))
            && (f in filled && Unread(d, base, old_, net, f).None? ==> net.hash(filled[f]) == d.manifest[f])
  {
    var base := st[Name(d)].files;
    assert FilledAt(d, base, old_, net, f) == Look(Filled(d, base, old_, net), f);
  }

  /** What is in place belongs to this very version, or nothing is. */
  predicate Whole(st: Storage, d: Deploy) {
    Name(d) in st ==>
      match st[Name(d)].manifest
      case None => st[Name(d)].files == map[]
      case Some(m) => forall f :: f in d.manifest ==> f in m && m[f] == d.manifest[f]
  }

  /** Unless an install was killed midway, the only files in question are those
      of the chosen cache whose record did not change. */
  lemma UnchangedHashesAreTrusted(st: Storage, d: Deploy, order: seq<string>, entries: seq<string>, net: Net)
    requires Lists(entries, d.manifest) && d.manifest.Keys !! d.lazy.Keys && Whole(st, d)
    ensures var (st1, r) := (Open(st, Name(d)), Installed(st, d, order, entries, net));
            var old_ := Source_(st1, Chosen(st1, d, order));
            r.1 ==> (AllTrue(d, net, r.0[Name(d)].files)
                     <==> forall f :: f in d.manifest && Reusable(old_, f, d.manifest[f]) ==>
                            net.hash(old_.value.files[f]) == d.manifest[f])
  {
    var st1 := Open(st, Name(d));
    var old_ := Source_(st1, Chosen(st1, d, order));
    var base := st1[Name(d)].files;
    TrueAfterExactly(st, d, order, entries, net);
    forall f | f in d.manifest
      ensures Unread(d, base, old_, net, f).Some? <==> Reusable(old_, f, d.manifest[f])
    {
    }
    if UnreadTrue(d, base, old_, net) {
      forall f | f in d.manifest && Reusable(old_, f, d.manifest[f])
        ensures net.hash(old_.value.files[f]) == d.manifest[f]
      {
        assert Unread(d, base, old_, net, f) == Some(old_.value.files[f]);
      }
    }
  }

  /** And they can be wrong.  Version 1 has a lazy file, which is stored as it
      comes, unhashed; version 2 lists it in its manifest with the hash version 1
      recorded.  The completed install of version 2 holds the wrong bytes. */
  lemma LazyBytesAreTrusted(f: string, wrong: Bytes, hash: Bytes -> string, right: string)
    requires hash(wrong) != right && '?' !in f
    ensures var d1, d2 := Deploy("/", "1", map[], map[f := right]), Deploy("/", "2", map[f := right], map[]);
            var net := Net((_: string) => None, (_: string) => false, hash);
            var (st1, ok1) := Installed(map[], d1, [], [], net);
            ok1 && Name(d1) in st1
            && var c := ServeShell(st1[Name(d1)], SW.Lazy, f, "", false, Reply.Ok(wrong)).1;
               var (st2, ok2) := Installed(st1[Name(d1) := c], d2, [Name(d1)], [f], net);
               ok2 && Name(d2) in st2 && st2[Name(d2)].files == map[f := wrong] && !AllTrue(d2, net, st2[Name(d2)].files)
  {
    var d1, d2 := Deploy("/", "1", map[], map[f := right]), Deploy("/", "2", map[f := right], map[]);
    var net := Net((_: string) => None, (_: string) => false, hash);
    var (st1, ok1) := Installed(map[], d1, [], [], net);
    assert d1.manifest + d1.lazy == map[f := right];
    assert st1[Name(d1)].files == map[] && st1[Name(d1)].manifest == Some(map[f := right]);
    assert f + "" == f;
    var c := ServeShell(st1[Name(d1)], SW.Lazy, f, "", false, Reply.Ok(wrong)).1;
    assert c.files == map[f := wrong];
    SW.OwnedByItsScopeOnly("/", "1", "/");
    if Name(d1) == Name(d2) {
      SW.NamesAreDistinct("/", "1", "/", "2");
    }
    var st := Open(st1[Name(d1) := c], Name(d2));
    assert Chosen(st, d2, [Name(d1)]) == Some(Name(d1));
    assert Filled(d2, map[], Some(c), net) == map[f := wrong];
    assert Carried(d2, Some(c)) == map[];
  }

  // --- update after update ---

  /** `activate`: our other caches go, everything else on the origin stays. */
  function Activated(st: Storage, d: Deploy): Storage {
    map n | n in st && (n == Name(d) || !SW.IsOwnCache(n, d.scope)) :: st[n]
  }

  /** Activation never touches a cache of another scope, however it is nested. */
  lemma SiblingsSurvive(st: Storage, d: Deploy, scope: string, version: string)
    requires SW.IsScope(d.scope) && SW.IsScope(scope) && scope != d.scope && '/' !in version
    requires SW.CacheName(scope, version) in st
    ensures SW.CacheName(scope, version) in Activated(st, d) && Activated(st, d)[SW.CacheName(scope, version)] == st[SW.CacheName(scope, version)]
  {
    SW.OwnedByItsScopeOnly(scope, version, d.scope);
  }

  datatype Attempt = Attempt(deploy: Deploy, order: seq<string>, entries: seq<string>, net: Net)

  /** One deploy reaching the client: install, and activate if it completed. */
  function Update(st: Storage, active: Deploy, a: Attempt): (Storage, Deploy)
    requires Lists(a.entries, a.deploy.manifest)
  {
    var (r, ok) := Installed(st, a.deploy, a.order, a.entries, a.net);
    if ok then (Activated(r, a.deploy), a.deploy) else (r, active)
  }

  /** The active worker's cache is the only one of ours that bears a manifest. */
  ghost predicate Serving(h: History, st: Storage, active: Deploy) {
    && Belongs(h, active) && Name(active) in st && st[Name(active)].manifest.Some?
    && forall n :: n in st && SW.IsOwnCache(n, h.scope) && n != Name(active) ==> st[n].manifest == None
  }

  ghost predicate Possible(h: History, st: Storage, a: Attempt) {
    && Belongs(h, a.deploy) && Lists(a.entries, a.deploy.manifest) && a.net.hash == h.hash
    && forall n :: n in st ==> n in a.order
  }

  lemma ActiveIsChosen(h: History, st: Storage, active: Deploy, a: Attempt)
    requires Serving(h, st, active) && Possible(h, st, a)
    ensures Chosen(Open(st, Name(a.deploy)), a.deploy, a.order) == Some(Name(active))
  {
    var st1, d := Open(st, Name(a.deploy)), a.deploy;
    ScanFinds(st1, d, a.order);
    SW.OwnedByItsScopeOnly(active.scope, active.version, active.scope);
    SW.OwnedByItsScopeOnly(d.scope, d.version, d.scope);
  }

  ghost predicate StillOffline(st: Storage, active: Deploy, r: Storage, now: Deploy)
    requires Name(active) in st && Name(now) in r
  {
    forall f :: f in st[Name(active)].files && f in now.manifest ==>
      f in r[Name(now)].files && (now == active ==> r[Name(now)].files[f] == st[Name(active)].files[f])
  }

  lemma CompletedKeepsOffline(h: History, st: Storage, active: Deploy, a: Attempt)
    requires Sound(h, st) && Serving(h, st, active) && Possible(h, st, a)
    requires Installed(st, a.deploy, a.order, a.entries, a.net).1
    ensures var r := Installed(st, a.deploy, a.order, a.entries, a.net).0;
            Name(a.deploy) in r && r[Name(a.deploy)].manifest.Some? && StillOffline(st, active, r, a.deploy)
  {
    var d := a.deploy;
    var r := Installed(st, d, a.order, a.entries, a.net).0;
    ActiveIsChosen(h, st, active, a);
    forall f | f in st[Name(active)].files && f in d.manifest ensures f in r[Name(d)].files {
      ServedFileIsKept(h, st, d, a.order, a.entries, a.net, f);
    }
    if d == active {
      forall f | f in st[Name(active)].files && f in d.manifest ensures r[Name(d)].files[f] == st[Name(active)].files[f] {
        InPlaceTouchesNothing(h, st, d, a.order, a.net, f);
      }
    }
  }

  /** One update: whatever fails, the active worker still serves every file it
      could serve and that its manifest lists, with that manifest's bytes. */
  lemma UpdateKeepsOffline(h: History, st: Storage, active: Deploy, a: Attempt)
    requires Sound(h, st) && Serving(h, st, active) && Possible(h, st, a)
    ensures var (r, now) := Update(st, active, a);
            Sound(h, r) && Serving(h, r, now) && StillOffline(st, active, r, now)
  {
    var d := a.deploy;
    var (r1, ok) := Installed(st, d, a.order, a.entries, a.net);
    InstallKeepsSound(h, st, d, a.order, a.entries, a.net);
    SW.OwnedByItsScopeOnly(d.scope, d.version, d.scope);
    if ok {
      CompletedKeepsOffline(h, st, active, a);
    } else {
      ActiveIsChosen(h, st, active, a);
      FailureLeavesTheSurvivor(h, st, d, a.order, a.entries, a.net);
    }
  }

  /** What happens to the cache: a deploy reaches the client, or the active worker
      answers a request that is the shell's. */
  datatype Event =
    | Deployed(a: Attempt)
    | Served(file: string, query: string, navigate: bool, reply: Reply)

  ghost predicate Moves(h: History, st: Storage, active: Deploy, e: Event, r: Storage, now: Deploy) {
    match e
    case Deployed(a) => Possible(h, st, a) && (r, now) == Update(st, active, a)
    case Served(file, query, navigate, reply) =>
      var role := SW.ShellRole(active.scope + file, active.scope, active.manifest, navigate, active.lazy);
      && IsQuery(query) && role.Some? && now == active && Name(active) in st
      && r == st[Name(active) := ServeShell(st[Name(active)], role.value, file, query, navigate, reply).1]
  }

  ghost predicate IsHistory(h: History, sts: seq<Storage>, actives: seq<Deploy>, events: seq<Event>) {
    && |sts| == |actives| == |events| + 1 && Sound(h, sts[0]) && Serving(h, sts[0], actives[0])
    && forall i :: 0 <= i < |events| ==> Moves(h, sts[i], actives[i], events[i], sts[i + 1], actives[i + 1])
  }

  lemma ServedStep(h: History, st: Storage, active: Deploy, e: Event, r: Storage, now: Deploy)
    requires Sound(h, st) && Serving(h, st, active) && e.Served? && Moves(h, st, active, e, r, now)
    ensures Sound(h, r) && Serving(h, r, now) && StillOffline(st, active, r, now)
  {
    var c := st[Name(active)];
    SW.OwnedByItsScopeOnly(active.scope, active.version, active.scope);
    assert VersionOk(h, st, active) && Truthful(h, c);
    ServingKeepsTheManifest(h, active, c, active.scope + e.file, e.file, e.query, e.navigate, e.reply);
    assert r[Name(active)].manifest == c.manifest;
    forall f | f in active.manifest ensures Look(r[Name(active)].files, f) == Look(c.files, f) {
    }
    forall d: Deploy | Belongs(h, d) ensures VersionOk(h, r, d) {
      assert VersionOk(h, st, d);
    }
  }

  lemma MoveStep(h: History, st: Storage, active: Deploy, e: Event, r: Storage, now: Deploy)
    requires Sound(h, st) && Serving(h, st, active) && Moves(h, st, active, e, r, now)
    ensures Sound(h, r) && Serving(h, r, now) && StillOffline(st, active, r, now)
  {
    if e.Deployed? {
      UpdateKeepsOffline(h, st, active, e.a);
    } else {
      ServedStep(h, st, active, e, r, now);
    }
  }

  lemma {:induction false} HistoryIsSound(h: History, sts: seq<Storage>, actives: seq<Deploy>, events: seq<Event>, i: nat)
    requires IsHistory(h, sts, actives, events) && i < |sts|
    ensures Sound(h, sts[i]) && Serving(h, sts[i], actives[i])
  {
    if i > 0 {
      HistoryIsSound(h, sts, actives, events, i - 1);
      MoveStep(h, sts[i - 1], actives[i - 1], events[i - 1], sts[i], actives[i]);
    }
  }

  ghost predicate Available(st: Storage, active: Deploy, f: string) {
    Name(active) in st && f in st[Name(active)].files
  }

  lemma AvailableNext(h: History, sts: seq<Storage>, actives: seq<Deploy>, events: seq<Event>, j: nat, f: string)
    requires IsHistory(h, sts, actives, events) && j < |events| && Available(sts[j], actives[j], f)
    requires f in actives[j + 1].manifest
    ensures Available(sts[j + 1], actives[j + 1], f)
  {
    HistoryIsSound(h, sts, actives, events, j);
    MoveStep(h, sts[j], actives[j], events[j], sts[j + 1], actives[j + 1]);
  }

  lemma {:induction false} StaysAvailable(h: History, sts: seq<Storage>, actives: seq<Deploy>, events: seq<Event>, i: nat, j: nat, f: string)
    requires IsHistory(h, sts, actives, events) && i <= j < |sts| && Available(sts[i], actives[i], f)
    requires forall k :: i <= k <= j ==> f in actives[k].manifest
    ensures Available(sts[j], actives[j], f)
    decreases j
  {
    if i < j {
      StaysAvailable(h, sts, actives, events, i, j - 1, f);
      AvailableNext(h, sts, actives, events, j - 1, f);
    }
  }

  /** Over any sequence of deploys, failures, mismatches and served requests: a
      file available offline stays available as long as the active manifests list
      it, and always has the bytes of the manifest that is active. */
  lemma OfflineFilesSurvive(h: History, sts: seq<Storage>, actives: seq<Deploy>, events: seq<Event>, i: nat, j: nat, f: string)
    requires IsHistory(h, sts, actives, events) && i <= j < |sts| && Available(sts[i], actives[i], f)
    requires forall k :: i <= k <= j ==> f in actives[k].manifest
    ensures Available(sts[j], actives[j], f)
    ensures h.hash(sts[j][Name(actives[j])].files[f]) == actives[j].manifest[f]
  {
    StaysAvailable(h, sts, actives, events, i, j, f);
    HistoryIsSound(h, sts, actives, events, j);
  }
}
