/** The service worker's install transaction, activation and shell serving
    (`blobs-sw.ts`).  A cache is seen from this worker's scope: its keys are the
    scope-relative paths, its records (manifest, failure, errors) are kept apart
    from the files. */
module ShellInstall {
  import opened Wrappers
  import SW = SwCache

  type Bytes = seq<bv8>
  type Manifest = map<string, string>

  datatype Reason = NotFetched(file: string) | Evicted(file: string) | Mismatch(file: string)
  datatype Failure = Failure(version: string, attempts: nat, errors: seq<Reason>)

  datatype Cache = Cache(
    files: map<string, Bytes>,
    manifest: Option<Manifest>,
    failed: Option<Failure>,
    installErrors: Option<seq<Reason>>)

  type Storage = map<string, Cache>

  const EMPTY := Cache(map[], None, None, None)

  /** What a worker script was built with. */
  datatype Deploy = Deploy(scope: string, version: string, manifest: Manifest, lazy: Manifest)

  /** What the platform does during one install. */
  datatype Net = Net(
    fetch: string -> Option<Bytes>,  // a 200's body; None for any other status or a failure
    evicts: string -> bool,          // the entry is gone before it is verified
    hash: Bytes -> string)           // the content hash

  datatype Source = Reused | Fetched(bytes: Bytes) | Rejected

  function Name(d: Deploy): string {
    SW.CacheName(d.scope, d.version)
  }

  function Look(m: map<string, Bytes>, f: string): Option<Bytes> {
    if f in m then Some(m[f]) else None
  }

  function Open(st: Storage, name: string): Storage {
    if name in st then st else st[name := EMPTY]
  }

  /** The first cache of `order` that is ours and bears a manifest. */
  function Scan(st: Storage, d: Deploy, order: seq<string>): Option<string> {
    if order == [] then None
    else if order[0] in st && order[0] != Name(d) && SW.IsOwnCache(order[0], d.scope) && st[order[0]].manifest.Some? then Some(order[0])
    else Scan(st, d, order[1..])
  }

  /** The cache to copy from: the own cache first. */
  function Chosen(st: Storage, d: Deploy, order: seq<string>): Option<string>
    requires Name(d) in st
  {
    if st[Name(d)].manifest.Some? then Some(Name(d)) else Scan(st, d, order)
  }

  predicate Reusable(old_: Option<Cache>, f: string, h: string) {
    && old_.Some? && old_.value.manifest.Some? && f in old_.value.manifest.value && old_.value.manifest.value[f] == h
    && f in old_.value.files
  }

  function SourceOf(d: Deploy, old_: Option<Cache>, net: Net, f: string): Source
    requires f in d.manifest
  {
    if Reusable(old_, f, d.manifest[f]) then Reused
    else match net.fetch(f) case Some(b) => Fetched(b) case None => Rejected
  }

  predicate Verified(d: Deploy, net: Net, f: string, b: Bytes)
    requires f in d.manifest
  {
    !net.evicts(f) && net.hash(b) == d.manifest[f]
  }

  /** Why `f` is unavailable after the fill, if it is. */
  function Problem(d: Deploy, old_: Option<Cache>, net: Net, f: string): Option<Reason>
    requires f in d.manifest
  {
    match SourceOf(d, old_, net, f)
    case Reused => None
    case Rejected => Some(NotFetched(f))
    case Fetched(b) => if net.evicts(f) then Some(Evicted(f)) else if Verified(d, net, f, b) then None else Some(Mismatch(f))
  }

  /** A file of the cache after the concurrent puts. */
  function PutAt(d: Deploy, base: map<string, Bytes>, old_: Option<Cache>, net: Net, f: string): Option<Bytes> {
    if f !in d.manifest then Look(base, f)
    else
      match SourceOf(d, old_, net, f)
      case Reused => Look(old_.value.files, f)
      case Fetched(b) => Some(b)
      case Rejected => Look(base, f)
  }

  /** A file of the cache after the verification. */
  function FilledAt(d: Deploy, base: map<string, Bytes>, old_: Option<Cache>, net: Net, f: string): Option<Bytes> {
    if Wrong(d, old_, net, f).Some? then None
    else PutAt(d, base, old_, net, f)
  }

  function Filled(d: Deploy, base: map<string, Bytes>, old_: Option<Cache>, net: Net): map<string, Bytes> {
    map f | f in base.Keys + d.manifest.Keys && FilledAt(d, base, old_, net, f).Some? :: FilledAt(d, base, old_, net, f).value
  }

  function Errors(d: Deploy, old_: Option<Cache>, net: Net, entries: seq<string>): seq<Reason>
    requires forall f :: f in entries ==> f in d.manifest
  {
    if entries == [] then []
    else
      var f := entries[|entries| - 1];
      var p := Problem(d, old_, net, f);
      Errors(d, old_, net, entries[..|entries| - 1]) + if p.Some? then [p.value] else []
  }

  /** A file that is unavailable but the cache copied from has it. */
  predicate Losing(d: Deploy, old_: Option<Cache>, net: Net, has: set<string>, f: string)
    requires f in d.manifest
  {
    Problem(d, old_, net, f).Some? && old_.Some? && f in has
  }

  /** The opt-in files whose recorded hash is still the current one. */
  function Carried(d: Deploy, old_: Option<Cache>): map<string, Bytes> {
    map f | f in d.lazy && Reusable(old_, f, d.lazy[f]) :: old_.value.files[f]
  }

  function Attempts(d: Deploy, c: Cache): nat {
    if c.failed.Some? && c.failed.value.version == Name(d) then c.failed.value.attempts + 1 else 1
  }

  /** The update would lose files: record it in the surviving cache, drop the new one. */
  function Abandoned(st: Storage, d: Deploy, from: string, errors: seq<Reason>): Storage
    requires from in st
  {
    (st - {Name(d)})[from := st[from].(failed := Some(Failure(Name(d), Attempts(d, st[from]), errors)))]
  }

  function Completed(st: Storage, d: Deploy, filled: map<string, Bytes>, carried: map<string, Bytes>, errors: seq<Reason>): Storage
    requires Name(d) in st
  {
    st[Name(d) := Cache(filled + carried, Some(d.manifest + d.lazy), st[Name(d)].failed, Some(errors))]
  }

  function Source_(st: Storage, chosen: Option<string>): Option<Cache> {
    if chosen.Some? && chosen.value in st then Some(st[chosen.value]) else None
  }

  /** The files the chosen cache has once the new one is filled. */
  function Has(d: Deploy, chosen: Option<string>, old_: Option<Cache>, filled: map<string, Bytes>): set<string> {
    if chosen == Some(Name(d)) then filled.Keys else if old_.Some? then old_.value.files.Keys else {}
  }

  /** The whole transaction: the storage it leaves and whether it completed. */
  function Installed(st0: Storage, d: Deploy, order: seq<string>, entries: seq<string>, net: Net): (Storage, bool)
    requires forall f :: f in entries <==> f in d.manifest
  {
    var st := Open(st0, Name(d));
    var chosen := Chosen(st, d, order);
    var old_ := Source_(st, chosen);
    var filled := Filled(d, st[Name(d)].files, old_, net);
    var errors := Errors(d, old_, net, entries);
    if st[Name(d)].manifest == None && old_.Some? && exists f :: f in d.manifest && Losing(d, old_, net, Has(d, chosen, old_, filled), f) then
      (Abandoned(st, d, chosen.value, errors), false)
    else
      var carried := if old_.Some? && chosen != Some(Name(d)) then Carried(d, old_) else map[];
      (Completed(st, d, filled, carried, errors), true)
  }

  /** `Object.entries` of the manifest: every file once, in some order. */
  ghost predicate Lists(entries: seq<string>, m: Manifest) {
    && (forall f :: f in entries <==> f in m)
    && forall i, j :: 0 <= i < j < |entries| ==> entries[i] != entries[j]
  }

  /** `done` are the entries before `i`. */
  ghost predicate Through(entries: seq<string>, i: nat, done: set<string>) {
    && (forall j :: 0 <= j < |entries| && j < i ==> entries[j] in done)
    && (forall j :: 0 <= j < |entries| && i <= j ==> entries[j] !in done)
    && forall f :: f in done ==> f in entries
  }

  /** What the verification finds wrong with a file off the network. */
  function Wrong(d: Deploy, old_: Option<Cache>, net: Net, f: string): Option<Reason> {
    if f in d.manifest && SourceOf(d, old_, net, f).Fetched? then Problem(d, old_, net, f) else None
  }

  function Found(m: map<string, Reason>, f: string): Option<Reason> {
    if f in m then Some(m[f]) else None
  }

  // --- the object ---

  class ShellWorker {
    const d: Deploy
    var storage: Storage

    constructor (deploy: Deploy, st: Storage)
      ensures d == deploy && storage == st
    {
      d, storage := deploy, st;
    }

    method ChooseOld(order: seq<string>) returns (chosen: Option<string>)
      requires Name(d) in storage
      ensures chosen == Chosen(storage, d, order)
      ensures chosen.Some? ==> chosen.value in storage && storage[chosen.value].manifest.Some?
    {
      if storage[Name(d)].manifest.Some? {
        return Some(Name(d));
      }
      var i := 0;
      while i < |order|
        invariant 0 <= i <= |order| && Scan(storage, d, order) == Scan(storage, d, order[i..])
      {
        var name := order[i];
        if name in storage && name != Name(d) && SW.IsOwnCache(name, d.scope) && storage[name].manifest.Some? {
          return Some(name);
        }
        assert order[i..][1..] == order[i + 1..];
        i := i + 1;
      }
      return None;
    }

    /** Every entry, reused or fetched. */
    method Fill(base: map<string, Bytes>, entries: seq<string>, old_: Option<Cache>, net: Net)
      returns (files: map<string, Bytes>, results: seq<Source>)
      requires Lists(entries, d.manifest)
      ensures forall f :: Look(files, f) == PutAt(d, base, old_, net, f)
      ensures |results| == |entries| && forall i :: 0 <= i < |entries| ==> results[i] == SourceOf(d, old_, net, entries[i])
    {
      files, results := base, [];
      ghost var done: set<string> := {};
      for i := 0 to |entries|
        invariant Through(entries, i, done)
        invariant forall f :: Look(files, f) == if f in done then PutAt(d, base, old_, net, f) else Look(base, f)
        invariant |results| == i && forall j :: 0 <= j < i ==> results[j] == SourceOf(d, old_, net, entries[j])
      {
        var f := entries[i];
        assert f in entries;
        var source := SourceOf(d, old_, net, f);
        if source.Reused? {
          files := files[f := old_.value.files[f]];
        } else if source.Fetched? {
          files := files[f := source.bytes];
        }
        results := results + [source];
        done := done + {f};
      }
    }

    /** Hash what came off the network; drop what is not the manifest's file. */
    method Verify(put: map<string, Bytes>, entries: seq<string>, results: seq<Source>, ghost base: map<string, Bytes>, old_: Option<Cache>, net: Net)
      returns (files: map<string, Bytes>, mismatched: map<string, Reason>)
      requires Lists(entries, d.manifest)
      requires |results| == |entries| && forall i :: 0 <= i < |entries| ==> results[i] == SourceOf(d, old_, net, entries[i])
      requires forall f :: Look(put, f) == PutAt(d, base, old_, net, f)
      ensures forall f :: Look(files, f) == FilledAt(d, base, old_, net, f)
      ensures forall f :: Found(mismatched, f) == Wrong(d, old_, net, f)
    {
      files, mismatched := put, map[];
      ghost var done: set<string> := {};
      for i := 0 to |entries|
        invariant Through(entries, i, done)
        invariant forall f :: Look(files, f) == if f in done then FilledAt(d, base, old_, net, f) else PutAt(d, base, old_, net, f)
        invariant forall f :: Found(mismatched, f) == if f in done then Wrong(d, old_, net, f) else None
      {
        var f := entries[i];
        assert f in entries;
        if results[i].Fetched? {
          assert Look(files, f) == Some(results[i].bytes);
          if net.evicts(f) {
            files := files - {f}; // by the platform
            mismatched := mismatched[f := Evicted(f)];
          } else if net.hash(files[f]) != d.manifest[f] {
            files := files - {f};
            mismatched := mismatched[f := Mismatch(f)];
          }
        }
        done := done + {f};
      }
    }

    /** Decide once, over every failure. */
    method Collect(entries: seq<string>, results: seq<Source>, mismatched: map<string, Reason>, old_: Option<Cache>, has: set<string>, net: Net)
      returns (errors: seq<Reason>, losing: seq<string>)
      requires Lists(entries, d.manifest)
      requires |results| == |entries| && forall i :: 0 <= i < |entries| ==> results[i] == SourceOf(d, old_, net, entries[i])
      requires forall f :: Found(mismatched, f) == Wrong(d, old_, net, f)
      ensures errors == Errors(d, old_, net, entries)
      ensures losing != [] <==> exists f :: f in d.manifest && Losing(d, old_, net, has, f)
    {
      errors, losing := [], [];
      var i := 0;
      while i < |entries|
        invariant 0 <= i <= |entries|
        invariant forall f :: f in entries[..i] ==> f in d.manifest
        invariant errors == Errors(d, old_, net, entries[..i])
        invariant losing != [] <==> exists j :: 0 <= j < i && Losing(d, old_, net, has, entries[j])
      {
        var f := entries[i];
        assert f in entries;
        var reason := if results[i].Rejected? then Some(NotFetched(f)) else Found(mismatched, f);
        assert reason == Problem(d, old_, net, f);
        assert entries[..i + 1][..i] == entries[..i];
        if reason.Some? {
          errors := errors + [reason.value];
          if old_.Some? && f in has {
            losing := losing + [f];
          }
        }
        i := i + 1;
      }
      assert entries[..i] == entries;
      if x :| x in d.manifest && Losing(d, old_, net, has, x) {
        assert x in entries;
      }
    }

    method CarryLazy(base: map<string, Bytes>, old_: Cache) returns (files: map<string, Bytes>)
      ensures files == base + Carried(d, Some(old_))
    {
      var left := d.lazy.Keys;
      files := base;
      while left != {}
        invariant left <= d.lazy.Keys
        invariant forall f :: Look(files, f) ==
                    if f !in left && f in Carried(d, Some(old_)) then Some(old_.files[f]) else Look(base, f)
        decreases left
      {
        var f :| f in left;
        if Reusable(Some(old_), f, d.lazy[f]) {
          files := files[f := old_.files[f]];
        }
        left := left - {f};
      }
      SameLookups(files, base + Carried(d, Some(old_)));
    }

    method OpenOwn()
      modifies this
      ensures storage == Open(old(storage), Name(d))
    {
      if Name(d) !in storage {
        storage := storage[Name(d) := EMPTY];
      }
    }

    method Abandon(from: string, errors: seq<Reason>)
      requires from in storage && from != Name(d)
      modifies this
      ensures storage == Abandoned(old(storage), d, from, errors)
    {
      var failure := Failure(Name(d), Attempts(d, storage[from]), errors);
      storage := storage[from := storage[from].(failed := Some(failure))];
      storage := storage - {Name(d)};
    }

    method Complete(filled: map<string, Bytes>, carry: Option<Cache>, errors: seq<Reason>)
      requires Name(d) in storage
      modifies this
      ensures storage == Completed(old(storage), d, filled, if carry.Some? then Carried(d, carry) else map[], errors)
    {
      var files := filled;
      if carry.Some? {
        files := CarryLazy(filled, carry.value);
      }
      assert filled + map[] == filled;
      storage := storage[Name(d) := Cache(files, Some(d.manifest + d.lazy), storage[Name(d)].failed, Some(errors))];
    }

    /** The install handler. */
    method Install(order: seq<string>, entries: seq<string>, net: Net) returns (ok: bool)
      requires Lists(entries, d.manifest)
      modifies this
      ensures (storage, ok) == Installed(old(storage), d, order, entries, net)
    {
      OpenOwn();
      var base := storage[Name(d)].files;
      var chosen := ChooseOld(order);
      var old_ := if chosen.Some? then Some(storage[chosen.value]) else None;
      var put, results := Fill(base, entries, old_, net);
      var filled, mismatched := Verify(put, entries, results, base, old_, net);
      SameLookups(filled, Filled(d, base, old_, net));
      var errors, losing := Collect(entries, results, mismatched, old_, Has(d, chosen, old_, filled), net);
      if old_.Some? && losing != [] && storage[Name(d)].manifest == None {
        Abandon(chosen.value, errors);
        return false;
      }
      Complete(filled, if chosen == Some(Name(d)) then None else old_, errors);
      return true;
    }
  }

  lemma SameLookups(a: map<string, Bytes>, b: map<string, Bytes>)
    requires forall f :: Look(a, f) == Look(b, f)
    ensures a == b
  {
    assert forall f :: f in a <==> Look(a, f).Some?;
    assert forall f :: f in b <==> Look(b, f).Some?;
    forall f | f in a ensures a[f] == b[f] {
      assert Look(a, f) == Look(b, f);
    }
  }
}
