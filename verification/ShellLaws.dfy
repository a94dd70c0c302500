/** What one install leaves and one request is answered, said file by file. */
module ShellLaws {
  import opened Wrappers
  import opened ShellInstall
  import opened ShellUpdates
  import SW = SwCache

  // --- the install ---

  predicate Eligible(st: Storage, d: Deploy, n: string) {
    n in st && n != Name(d) && SW.IsOwnCache(n, d.scope) && st[n].manifest.Some?
  }

  /** The own cache if it is complete, else the first complete one of ours. */
  ghost predicate IsSource(st: Storage, d: Deploy, order: seq<string>, from: Option<string>) {
    if Name(d) in st && st[Name(d)].manifest.Some? then from == Some(Name(d))
    else
      match from
      case None => forall n :: n in order ==> !Eligible(st, d, n)
      case Some(n) => exists i :: 0 <= i < |order| && order[i] == n && Eligible(st, d, n) && forall j :: 0 <= j < i ==> !Eligible(st, d, order[j])
  }

  /** The cache copied from has the file under the hash it is to have now. */
  predicate Unchanged(old_: Option<Cache>, f: string, hash: string) {
    old_.Some? && f in old_.value.files && old_.value.manifest.Some? && f in old_.value.manifest.value && old_.value.manifest.value[f] == hash
  }

  predicate Arrives(d: Deploy, net: Net, f: string)
    requires f in d.manifest
  {
    net.fetch(f).Some? && !net.evicts(f) && net.hash(net.fetch(f).value) == d.manifest[f]
  }

  predicate Failing(d: Deploy, old_: Option<Cache>, net: Net, f: string) {
    f in d.manifest && !Unchanged(old_, f, d.manifest[f]) && !Arrives(d, net, f)
  }

  /** The file of a completed install: carried over, copied, downloaded and
      verified, left in place when there is no download, or missing. */
  function FileAfter(d: Deploy, base: map<string, Bytes>, old_: Option<Cache>, other: bool, net: Net, f: string): Option<Bytes> {
    if other && f in d.lazy && Unchanged(old_, f, d.lazy[f]) then Some(old_.value.files[f])
    else if f !in d.manifest then Look(base, f)
    else if Unchanged(old_, f, d.manifest[f]) then Some(old_.value.files[f])
    else if Arrives(d, net, f) then net.fetch(f)
    else if net.fetch(f) == None then Look(base, f)
    else None
  }

  function NameOf(r: Reason): string {
    match r case NotFetched(f) => f case Evicted(f) => f case Mismatch(f) => f
  }

  predicate ReasonIs(net: Net, f: string, r: Reason) {
    && NameOf(r) == f
    && (r.NotFetched? <==> net.fetch(f) == None)
    && (r.Evicted? <==> net.fetch(f).Some? && net.evicts(f))
  }

  ghost predicate ReportsAll(d: Deploy, old_: Option<Cache>, net: Net, entries: seq<string>, errors: seq<Reason>) {
    forall f :: f in entries && Failing(d, old_, net, f) ==> exists i :: 0 <= i < |errors| && NameOf(errors[i]) == f
  }

  ghost predicate ReportsOnly(d: Deploy, old_: Option<Cache>, net: Net, entries: seq<string>, errors: seq<Reason>) {
    forall i :: 0 <= i < |errors| ==>
      var f := NameOf(errors[i]);
      f in entries && Failing(d, old_, net, f) && ReasonIs(net, f, errors[i])
  }

  ghost predicate ReportsInOrder(entries: seq<string>, errors: seq<Reason>) {
    forall i, j :: 0 <= i < j < |errors| ==> Precedes(entries, NameOf(errors[i]), NameOf(errors[j]))
  }

  /** Exactly the failing entries are reported, in their order. */
  ghost predicate Reports(d: Deploy, old_: Option<Cache>, net: Net, entries: seq<string>, errors: seq<Reason>) {
    && ReportsAll(d, old_, net, entries, errors) && ReportsOnly(d, old_, net, entries, errors)
    && ReportsInOrder(entries, errors)
  }

  predicate Precedes(entries: seq<string>, f: string, g: string) {
    exists i, j :: 0 <= i < j < |entries| && entries[i] == f && entries[j] == g
  }

  /** The install is given up: a file the cache copied from has would be lost. */
  ghost predicate WouldLose(st: Storage, d: Deploy, from: Option<string>, net: Net)
  {
    && from.Some? && from.value != Name(d) && from.value in st
    && exists f :: Failing(d, Some(st[from.value]), net, f) && f in st[from.value].files
  }

  function Base(st: Storage, d: Deploy): Cache {
    if Name(d) in st then st[Name(d)] else EMPTY
  }

  function SourceCache(st: Storage, from: Option<string>): Option<Cache> {
    if from.Some? && from.value in st then Some(st[from.value]) else None
  }

  ghost predicate CompletedIs(st: Storage, d: Deploy, from: Option<string>, entries: seq<string>, net: Net, r: Storage) {
    && Name(d) in r
    && (forall f :: Look(r[Name(d)].files, f) ==
                      FileAfter(d, Base(st, d).files, SourceCache(st, from), from != Some(Name(d)), net, f))
    && r[Name(d)].manifest == Some(d.manifest + d.lazy)
    && r[Name(d)].failed == Base(st, d).failed
    && r[Name(d)].installErrors.Some? && Reports(d, SourceCache(st, from), net, entries, r[Name(d)].installErrors.value)
    && forall n :: n != Name(d) ==> (n in r <==> n in st) && (n in r ==> r[n] == st[n])
  }

  ghost predicate AbandonedIs(st: Storage, d: Deploy, from: Option<string>, entries: seq<string>, net: Net, r: Storage) {
    && from.Some? && from.value in r && Name(d) !in r
    && (forall n :: n != Name(d) ==> (n in r <==> n in st) && (n in r && n != from.value ==> r[n] == st[n]))
    && from.value in st
    && r[from.value].files == st[from.value].files && r[from.value].manifest == st[from.value].manifest
    && r[from.value].installErrors == st[from.value].installErrors && r[from.value].failed.Some?
    && Reports(d, SourceCache(st, from), net, entries, r[from.value].failed.value.errors)
  }

  lemma FailingIsProblem(d: Deploy, old_: Option<Cache>, net: Net, f: string)
    requires f in d.manifest
    ensures Problem(d, old_, net, f).Some? <==> Failing(d, old_, net, f)
    ensures Problem(d, old_, net, f).Some? ==> ReasonIs(net, f, Problem(d, old_, net, f).value)
  {
  }

  lemma ReportedAll(d: Deploy, old_: Option<Cache>, net: Net, front: seq<string>, f: string, before: seq<Reason>)
    requires f in d.manifest && ReportsAll(d, old_, net, front, before)
    ensures var p := Problem(d, old_, net, f);
            ReportsAll(d, old_, net, front + [f], before + if p.Some? then [p.value] else [])
  {
    FailingIsProblem(d, old_, net, f);
    var p := Problem(d, old_, net, f);
    var all := before + if p.Some? then [p.value] else [];
    forall g | g in front + [f] && Failing(d, old_, net, g) ensures exists i :: 0 <= i < |all| && NameOf(all[i]) == g {
      if g in front {
        var i :| 0 <= i < |before| && NameOf(before[i]) == g;
        assert all[i] == before[i];
      } else {
        assert NameOf(all[|before|]) == g;
      }
    }
  }

  lemma PrecedesStill(front: seq<string>, f: string, g: string, h: string)
    requires Precedes(front, g, h)
    ensures Precedes(front + [f], g, h)
  {
    var k, l :| 0 <= k < l < |front| && front[k] == g && front[l] == h;
    assert (front + [f])[k] == g && (front + [f])[l] == h;
  }

  lemma ReportedInOrder(front: seq<string>, f: string, before: seq<Reason>, r: Reason)
    requires ReportsInOrder(front, before) && NameOf(r) == f && forall i :: 0 <= i < |before| ==> NameOf(before[i]) in front
    ensures ReportsInOrder(front + [f], before + [r])
  {
    var entries, all := front + [f], before + [r];
    forall i, j | 0 <= i < j < |all| ensures Precedes(entries, NameOf(all[i]), NameOf(all[j])) {
      if j < |before| {
        assert all[i] == before[i] && all[j] == before[j];
        PrecedesStill(front, f, NameOf(before[i]), NameOf(before[j]));
      } else {
        var k :| 0 <= k < |front| && front[k] == NameOf(before[i]);
        assert entries[k] == front[k] && entries[|front|] == NameOf(all[j]);
      }
    }
  }

  lemma StillInOrder(front: seq<string>, f: string, before: seq<Reason>)
    requires ReportsInOrder(front, before)
    ensures ReportsInOrder(front + [f], before)
  {
    forall i, j | 0 <= i < j < |before| ensures Precedes(front + [f], NameOf(before[i]), NameOf(before[j])) {
      PrecedesStill(front, f, NameOf(before[i]), NameOf(before[j]));
    }
  }

  lemma {:induction false} ErrorsReport(d: Deploy, old_: Option<Cache>, net: Net, entries: seq<string>)
    requires forall f :: f in entries ==> f in d.manifest
    ensures Reports(d, old_, net, entries, Errors(d, old_, net, entries))
  {
    if entries != [] {
      var front, f := entries[..|entries| - 1], entries[|entries| - 1];
      var before := Errors(d, old_, net, front);
      ErrorsReport(d, old_, net, front);
      FailingIsProblem(d, old_, net, f);
      ReportedAll(d, old_, net, front, f, before);
      assert front + [f] == entries;
      var p := Problem(d, old_, net, f);
      if p.Some? {
        ReportedInOrder(front, f, before, p.value);
      } else {
        StillInOrder(front, f, before);
        assert before + [] == before;
      }
    }
  }

  lemma {:induction false} ScanIsFirst(st: Storage, d: Deploy, order: seq<string>)
    ensures var r := Scan(st, d, order);
            && (r == None ==> forall n :: n in order ==> !Eligible(st, d, n))
            && (r.Some? ==> exists i :: 0 <= i < |order| && order[i] == r.value && Eligible(st, d, r.value)
                                        && forall j :: 0 <= j < i ==> !Eligible(st, d, order[j]))
  {
    if order != [] {
      var r := Scan(st, d, order);
      if Eligible(st, d, order[0]) {
        assert order[0] == r.value;
      } else {
        ScanIsFirst(st, d, order[1..]);
        if r.Some? {
          var i :| 0 <= i < |order[1..]| && order[1..][i] == r.value && Eligible(st, d, r.value)
                   && forall j :: 0 <= j < i ==> !Eligible(st, d, order[1..][j]);
          assert order[i + 1] == r.value;
          forall j | 0 <= j < i + 1 ensures !Eligible(st, d, order[j]) {
            if j > 0 {
              assert order[j] == order[1..][j - 1];
            }
          }
        }
      }
    }
  }

  lemma ChosenIsSource(st: Storage, d: Deploy, order: seq<string>)
    ensures IsSource(st, d, order, Chosen(Open(st, Name(d)), d, order))
  {
    var st1 := Open(st, Name(d));
    ScanIsFirst(st1, d, order);
    assert forall n :: Eligible(st1, d, n) <==> Eligible(st, d, n);
  }

  lemma FileIsAfter(d: Deploy, base: map<string, Bytes>, old_: Option<Cache>, other: bool, net: Net, f: string)
    ensures var carried := if other && old_.Some? then Carried(d, old_) else map[];
            Look(Filled(d, base, old_, net) + carried, f) == FileAfter(d, base, old_, other, net, f)
  {
  }

  /** One install, whole: which cache it copies from, when it is given up, what
      every file of every cache is afterwards, and what is reported. */
  lemma InstallMeans(st: Storage, d: Deploy, order: seq<string>, entries: seq<string>, net: Net)
    requires Lists(entries, d.manifest)
    ensures var (r, ok) := Installed(st, d, order, entries, net);
            exists from :: IsSource(st, d, order, from) && (ok <==> !WouldLose(st, d, from, net))
                           && if ok then CompletedIs(st, d, from, entries, net, r) else AbandonedIs(st, d, from, entries, net, r)
  {
    var st1 := Open(st, Name(d));
    var from := Chosen(st1, d, order);
    ChosenIsSource(st, d, order);
    var (r, ok) := Installed(st, d, order, entries, net);
    var old_ := Source_(st1, from);
    assert from.Some? ==> from.value in st && st1[from.value] == st[from.value];
    assert old_ == SourceCache(st, from);
    ErrorsReport(d, old_, net, entries);
    Losses(st, d, from, net);
    if ok {
      forall f ensures Look(r[Name(d)].files, f) == FileAfter(d, Base(st, d).files, old_, from != Some(Name(d)), net, f) {
        FileIsAfter(d, Base(st, d).files, old_, from != Some(Name(d)), net, f);
      }
      assert CompletedIs(st, d, from, entries, net, r);
    } else {
      assert AbandonedIs(st, d, from, entries, net, r);
    }
  }

  lemma Losses(st: Storage, d: Deploy, from: Option<string>, net: Net)
    requires from.Some? ==> from.value in st
    ensures var st1 := Open(st, Name(d));
            var old_ := Source_(st1, from);
            from != Some(Name(d)) ==>
              ((old_.Some? && exists f :: f in d.manifest && Losing(d, old_, net, Has(d, from, old_, Filled(d, st1[Name(d)].files, old_, net)), f))
               <==> WouldLose(st, d, from, net))
  {
    var st1 := Open(st, Name(d));
    var old_ := Source_(st1, from);
    forall f | f in d.manifest ensures Problem(d, old_, net, f).Some? <==> Failing(d, old_, net, f) {
      FailingIsProblem(d, old_, net, f);
    }
    if from.Some? && from.value != Name(d) {
      var has := Has(d, from, old_, Filled(d, st1[Name(d)].files, old_, net));
      if f :| f in d.manifest && Losing(d, old_, net, has, f) {
        assert Failing(d, Some(st[from.value]), net, f) && f in st[from.value].files;
      }
      if f :| Failing(d, Some(st[from.value]), net, f) && f in st[from.value].files {
        assert Losing(d, old_, net, has, f);
      }
    }
  }

  /** Activation deletes exactly the other caches of this scope and the unscoped
      ones; what does not bear our prefix is never touched. */
  lemma ActivationExactly(st: Storage, d: Deploy, n: string)
    requires n in st
    ensures n !in Activated(st, d) <==>
              n != Name(d) && SW.PREFIX <= n && ('/' !in n || (SW.PREFIX + d.scope <= n && '/' !in n[|SW.PREFIX + d.scope|..]))
    ensures n in Activated(st, d) ==> Activated(st, d)[n] == st[n]
  {
    if SW.PREFIX + d.scope <= n {
      assert SW.PREFIX <= SW.PREFIX + d.scope <= n;
    }
  }

  // --- serving ---

  predicate OptIn(file: string) {
    "fonts/emoji-sets/" <= file || "harper/" <= file
  }

  /** What is stored for a request: a manifest file whatever the query, an opt-in
      file under its full address, nothing else. */
  function Stored(d: Deploy, c: Cache, file: string, query: string): Option<Bytes> {
    if file in d.manifest then Look(c.files, file)
    else if file in d.lazy || OptIn(file) then Look(c.files, file + query)
    else None
  }

  /** A request that is ours: what is stored answers it, else the network, else,
      for a navigation, the stored `main.html`, and nothing but an offline
      navigation is answered so.  Only an opt-in file is ever written: when the
      network has it, and for a hashed one only when it was not stored. */
  lemma ServedExactly(d: Deploy, c: Cache, path: string, file: string, query: string, navigate: bool, reply: Reply)
    requires path == d.scope + file
    ensures var role := SW.ShellRole(path, d.scope, d.manifest, navigate, d.lazy);
            && (role == None <==> file !in d.manifest && file !in d.lazy && !OptIn(file) && !navigate)
            && (role.Some? ==>
                  var (response, c1) := ServeShell(c, role.value, file, query, navigate, reply);
                  var stored := Stored(d, c, file, query);
                  && response == (if stored.Some? then Cached(stored.value)
                                  else if reply != NoNetwork then FromNetwork(reply)
                                  else if navigate && "main.html" in c.files then Cached(c.files["main.html"])
                                  else Offline)
                  && (forall f :: Look(c1.files, f) ==
                                    if f == file + query && reply.Ok? && file !in d.manifest
                                       && (if file in d.lazy then stored == None else OptIn(file))
                                    then Some(reply.body) else Look(c.files, f))
                  && c1.manifest == c.manifest && c1.failed == c.failed && c1.installErrors == c.installErrors)
  {
    assert path[|d.scope|..] == file;
  }
}
