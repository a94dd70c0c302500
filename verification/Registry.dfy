/** Which pool databases the boot sweep may delete (`registry.rs`). */
module Registry {
  import opened Wrappers
  import opened Paths

  const EXPORT_TEMP_DB: string := "dc_database_backup.sqlite"
  const LEADING_KEY: string := "selected_account"

  predicate IsHexDigit(c: char) {
    '0' <= c <= '9' || 'a' <= c <= 'f' || 'A' <= c <= 'F'
  }

  /** 8-4-4-4-12 hexadecimal digits. */
  predicate IsUuid(s: string) {
    |s| == 36 && forall i :: 0 <= i < 36 ==> if i in {8, 13, 18, 23} then s[i] == '-' else IsHexDigit(s[i])
  }

  /** The name of the database's directory, when it is uuid-shaped. */
  function AccountUuidOfDb(db: string): Option<string> {
    var cs := Components(db);
    if !HasParent(cs) then None
    else
      var name := FileName(Parent(cs));
      if IsUuid(name) then Some(name) else None
  }

  /** The characters `str::trim_start` strips (Unicode White_Space). */
  predicate IsWhiteSpace(c: char) {
    c in "\t\n\r \U{0B}\U{0C}\U{85}\U{A0}\U{1680}\U{2028}\U{2029}\U{202F}\U{205F}\U{3000}" || '\U{2000}' <= c <= '\U{200A}'
  }

  function TrimStart(s: string): string {
    if s != "" && IsWhiteSpace(s[0]) then TrimStart(s[1..]) else s
  }

  predicate IsPlausibleRegistry(text: string) {
    LEADING_KEY <= TrimStart(text)
  }

  predicate Contains(text: string, part: string) {
    exists i :: 0 <= i <= |text| && part <= text[i..]
  }

  predicate IsOrphanSlot(db: string, main: string, bak: Option<string>) {
    if FileName(Components(db)) == EXPORT_TEMP_DB then true
    else
      match AccountUuidOfDb(db)
      case None => false
      case Some(uuid) => !Contains(main, uuid) && !(bak.Some? && Contains(bak.value, uuid))
  }

  /** The path core gives an account's database. */
  function DbPath(uuid: string, file: string): string {
    Render(["accounts", uuid, file])
  }

  lemma ComponentsOfRendered(p: Path)
    requires ValidPath(p) && p != []
    ensures Components(Render(p)) == [RootDir] + PieceComponents(p)
  {
    SplitRender(p);
    assert ([""] + p)[1..] == p;
  }

  /** The uuid the sweep reads off a database path is the account's. */
  lemma UuidRoundTrip(uuid: string, file: string)
    requires IsUuid(uuid) && ValidName(file)
    ensures AccountUuidOfDb(DbPath(uuid, file)) == Some(uuid)
    ensures FileName(Components(DbPath(uuid, file))) == file
  {
    var p := ["accounts", uuid, file];
    ComponentsOfRendered(p);
    assert p[1..] == [uuid, file] && p[1..][1..] == [file] && p[1..][1..][1..] == [];
    assert PieceComponents([file]) == [Normal(file)];
    assert PieceComponents([uuid, file]) == [Normal(uuid), Normal(file)];
    assert PieceComponents(p) == [Normal("accounts"), Normal(uuid), Normal(file)];
    assert Parent(Components(Render(p))) == [RootDir, Normal("accounts"), Normal(uuid)];
  }

  /** What the boot reads of the two registry files; `decode` is the UTF-8
      decoder, and an undecodable file counts as absent. */
  datatype Registries = Registries(main: Option<string>, bak: Option<string>)

  function ReadRegistries(main: string, bak: string, decode: string -> Option<string>): Registries {
    var m := decode(main);
    Registries(if m.Some? && IsPlausibleRegistry(m.value) then m else None, decode(bak))
  }

  /** The boot sweep over the pool's listing: which deletions it attempts. */
  method Sweep(pool: seq<string>, regs: Registries) returns (attempted: seq<string>)
    ensures regs.main.None? ==> attempted == []
    ensures regs.main.Some? ==>
              forall db :: db in attempted <==> db in pool && IsOrphanSlot(db, regs.main.value, regs.bak)
  {
    attempted := [];
    if regs.main.Some? {
      for i := 0 to |pool|
        invariant forall db :: db in attempted <==> db in pool[..i] && IsOrphanSlot(db, regs.main.value, regs.bak)
      {
        assert pool[..i + 1] == pool[..i] + [pool[i]];
        if IsOrphanSlot(pool[i], regs.main.value, regs.bak) {
          attempted := attempted + [pool[i]];
        }
      }
      assert pool[..|pool|] == pool;
    }
  }

  ghost predicate Swept(db: string, main: string, bak: string, decode: string -> Option<string>) {
    var regs := ReadRegistries(main, bak, decode);
    regs.main.Some? && IsOrphanSlot(db, regs.main.value, regs.bak)
  }

  /** An account database is deleted exactly when main is a plausible registry
      and neither file mentions the account. */
  lemma SweptExactly(uuid: string, file: string, main: string, bak: string, decode: string -> Option<string>)
    requires IsUuid(uuid) && ValidName(file) && file != EXPORT_TEMP_DB
    ensures Swept(DbPath(uuid, file), main, bak, decode) <==>
              && decode(main).Some? && IsPlausibleRegistry(decode(main).value)
              && !Contains(decode(main).value, uuid)
              && (decode(bak).Some? ==> !Contains(decode(bak).value, uuid))
  {
    UuidRoundTrip(uuid, file);
  }

  ghost predicate Blank(text: string, n: nat) {
    n <= |text| && forall i :: 0 <= i < n ==> IsWhiteSpace(text[i])
  }

  lemma {:induction false} TrimExactly(s: string)
    ensures exists n: nat :: Blank(s, n) && TrimStart(s) == s[n..] && (n < |s| ==> !IsWhiteSpace(s[n]))
  {
    if s != "" && IsWhiteSpace(s[0]) {
      TrimExactly(s[1..]);
      var n: nat :| Blank(s[1..], n) && TrimStart(s[1..]) == s[1..][n..] && (n < |s[1..]| ==> !IsWhiteSpace(s[1..][n]));
      assert s[1..][n..] == s[n + 1..];
      assert forall i :: 1 <= i < n + 1 ==> s[i] == s[1..][i - 1];
      assert Blank(s, n + 1);
    } else {
      assert s == s[0..] && Blank(s, 0);
    }
  }

  lemma KeyIsNotBlank(text: string, n: nat)
    requires n <= |text| && LEADING_KEY <= text[n..]
    ensures n < |text| && !IsWhiteSpace(text[n])
  {
    assert text[n] == text[n..][0] == LEADING_KEY[0] == 's';
  }

  /** Main is believed exactly when it begins, white space aside, with the key every
      registry begins with. */
  lemma PlausibleExactly(text: string)
    ensures IsPlausibleRegistry(text) <==> exists n: nat :: Blank(text, n) && "selected_account" <= text[n..]
  {
    TrimExactly(text);
    var n: nat :| Blank(text, n) && TrimStart(text) == text[n..] && (n < |text| ==> !IsWhiteSpace(text[n]));
    if m: nat :| Blank(text, m) && LEADING_KEY <= text[m..] {
      KeyIsNotBlank(text, m);
      assert m == n;
    }
  }

  lemma LastComponent(p: Path, file: string)
    requires ValidPath(p) && ValidName(file)
    ensures var cs := Components(Render(p + [file]));
            && HasParent(cs) && FileName(cs) == file
            && FileName(Parent(cs)) == (if p == [] then "" else p[|p| - 1])
  {
    var q := p + [file];
    assert forall n :: n in q ==> n in p || n == file;
    ComponentsOfRendered(q);
    NameComponents(q);
    var cs := Components(Render(q));
    assert cs[|q|] == Normal(file) && Parent(cs) == cs[..|q|];
    if p != [] {
      assert cs[|p|] == PieceComponents(q)[|p| - 1] == Normal(p[|p| - 1]);
    }
  }

  /** Wherever it lies, a left-over of a backup export is deleted under a plausible
      main, and a database that is neither that nor in an account's directory is
      never deleted. */
  lemma OtherDatabases(p: Path, file: string, main: string, bak: string, decode: string -> Option<string>)
    requires ValidPath(p) && ValidName(file) && (p == [] || !IsUuid(p[|p| - 1]) || file == "dc_database_backup.sqlite")
    ensures Swept(Render(p + [file]), main, bak, decode) <==>
              file == "dc_database_backup.sqlite" && decode(main).Some? && IsPlausibleRegistry(decode(main).value)
  {
    LastComponent(p, file);
  }

  /** Deletes the pool files at or below a removed path, component-wise; `stuck`
      are those whose deletion fails. */
  method PurgeUnder(pool: set<string>, prefix: seq<Component>, stuck: set<string>) returns (left: set<string>)
    ensures left == set name | name in pool && !(prefix <= Components(name) && name !in stuck)
  {
    left := pool;
    var todo := pool;
    while todo != {}
      invariant todo <= pool
      invariant left == set name | name in pool && (name in todo || !(prefix <= Components(name) && name !in stuck))
      decreases todo
    {
      var name :| name in todo;
      todo := todo - {name};
      if prefix <= Components(name) && name !in stuck {
        left := left - {name};
      }
    }
  }

  /** Purging an account's directory takes its databases and no other account's. */
  lemma PurgeIsPerAccount(uuid: string, other: string, file: string)
    requires IsUuid(uuid) && IsUuid(other) && ValidName(file)
    ensures Components(Render(["accounts", uuid])) <= Components(DbPath(other, file)) <==> uuid == other
  {
    var a, b := ["accounts", uuid], ["accounts", other, file];
    ComponentsOfRendered(a);
    ComponentsOfRendered(b);
    NameComponents(a);
    NameComponents(b);
    assert b[1] == other && a[1] == uuid;
    var ca, cb := Components(Render(a)), Components(Render(b));
    assert ca == [RootDir, Normal("accounts"), Normal(uuid)] && cb[..3] == [RootDir, Normal("accounts"), Normal(other)];
    assert ca <= cb <==> ca == cb[..3];
  }

  /** Plain names are their own components. */
  lemma {:induction false} NameComponents(names: seq<string>)
    requires forall n :: n in names ==> n != "" && n != "." && n != ".."
    ensures |PieceComponents(names)| == |names|
    ensures forall i :: 0 <= i < |names| ==> PieceComponents(names)[i] == Normal(names[i])
  {
    if names != [] {
      var rest := names[1..];
      assert forall n :: n in rest ==> n in names;
      NameComponents(rest);
      assert names[0] in names && names == [names[0]] + rest;
      assert PieceComponents(names) == [Normal(names[0])] + PieceComponents(rest);
    }
  }
}
