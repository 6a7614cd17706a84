/** The certificate store of dao/model.go: an `ssls` table of certificate records and a
    `domains` table of hostname rows pointing at them, with the schema's constraints, and
    the effect of every operation of dao/dao.go on the two tables as a function on table
    values. The class in module Dao runs these operations in place. */
module SslModel {
  import opened Common

  /** time.Time{}.Unix(): the expiry a record carries when nobody set one. */
  const ZeroTimeUnix: int := -62135596800

  /** A row of the SSL table (gorm.Model's timestamps left out). */
  datatype SslRow = SslRow(id: nat, domainName: string, certId: string,
                           certPem: string, keyPem: string, notAfter: int)

  /** A row of the Domain table. `deleted` is gorm's soft-delete mark (DeletedAt set). */
  datatype DomainRow = DomainRow(name: string, sslId: nat, deleted: bool)

  /** Both tables, rows in insertion order, and the next auto-increment SSL id. */
  datatype Tables = Tables(ssls: seq<SslRow>, rows: seq<DomainRow>, nextId: nat)

  /** An SSL struct as the DAO returns it, with its Domains preloaded (names only). */
  datatype Ssl = Ssl(id: nat, domainName: string, certId: string, certPem: string,
                     keyPem: string, notAfter: int, domains: seq<string>)

  /** What a caller hands to CreateSSL; the id is assigned by the engine. */
  datatype NewSsl = NewSsl(domainName: string, certId: string, certPem: string,
                           keyPem: string, notAfter: int, domains: seq<string>)

  /** The struct a caller holds after CreateSSL stored `s` under `id`. */
  function Created(s: NewSsl, id: nat): Ssl {
    Ssl(id, s.domainName, s.certId, s.certPem, s.keyPem, s.notAfter, s.domains)
  }

  /** The zero SSL struct that `Find` leaves behind when no row matches. */
  const ZeroSsl: Ssl := Ssl(0, "", "", "", "", ZeroTimeUnix, [])

  /** The WHERE clauses the DAO uses on the SSL table. */
  datatype Where = ByDomainName(name: string) | ByCertId(certId: string)

  predicate Matches(r: SslRow, w: Where) {
    match w
    case ByDomainName(n) => r.domainName == n
    case ByCertId(c) => r.certId == c
  }

  function Ids(ssls: seq<SslRow>): set<nat> {
    set i | 0 <= i < |ssls| :: ssls[i].id
  }

  /** Every name held by a Domain row, soft-deleted or not: the unique index covers them all. */
  function AllNames(rows: seq<DomainRow>): set<string> {
    set i | 0 <= i < |rows| :: rows[i].name
  }

  /** The schema's constraints: ids are positive, increasing and below the next id;
      CertID is unique; Domain.Name is unique; every Domain row's SSLID names a record. */
  ghost predicate Valid(t: Tables) {
    && 0 < t.nextId
    && (forall i :: 0 <= i < |t.ssls| ==> 0 < t.ssls[i].id < t.nextId)
    && (forall i, j :: 0 <= i < j < |t.ssls| ==> t.ssls[i].id < t.ssls[j].id)
    && (forall i, j :: 0 <= i < j < |t.ssls| ==> t.ssls[i].certId != t.ssls[j].certId)
    && NamesUnique(t.rows)
    && (forall i :: 0 <= i < |t.rows| ==> t.rows[i].sslId in Ids(t.ssls))
  }

  /** The unique index on Domain.Name: no two rows, live or soft-deleted, share a name. */
  predicate NamesUnique(rows: seq<DomainRow>) {
    forall i, j :: 0 <= i < j < |rows| ==> rows[i].name != rows[j].name
  }

  /** `First`: the earliest row (lowest id) that matches, if any. */
  function First(ssls: seq<SslRow>, w: Where): (k: Option<nat>)
    ensures k.Some? ==> k.value < |ssls| && Matches(ssls[k.value], w)
    ensures k.Some? ==> forall i :: 0 <= i < k.value ==> !Matches(ssls[i], w)
    ensures k.None? ==> forall i :: 0 <= i < |ssls| ==> !Matches(ssls[i], w)
  {
    if ssls == [] then None
    else if Matches(ssls[0], w) then Some(0)
    else match First(ssls[1..], w)
      case None => None
      case Some(k) => Some(k + 1)
  }

  /** `Preload("Domains")`: the live Domain rows whose SSLID is `id`, in row order. */
  function Preload(rows: seq<DomainRow>, id: nat): seq<DomainRow> {
    if rows == [] then []
    else
      var r := rows[|rows| - 1];
      Preload(rows[..|rows| - 1], id) + (if !r.deleted && r.sslId == id then [r] else [])
  }

  function Names(rs: seq<DomainRow>): seq<string> {
    if rs == [] then [] else Names(rs[..|rs| - 1]) + [rs[|rs| - 1].name]
  }

  /** The hostnames a record holds: its preloaded Domains. */
  function ActiveDomains(rows: seq<DomainRow>, id: nat): seq<string> {
    Names(Preload(rows, id))
  }

  function Load(t: Tables, k: nat): Ssl
    requires k < |t.ssls|
  {
    var r := t.ssls[k];
    Ssl(r.id, r.domainName, r.certId, r.certPem, r.keyPem, r.notAfter, ActiveDomains(t.rows, r.id))
  }

  /** New live Domain rows for `names`, all pointing at `id`. */
  function NewRows(names: seq<string>, id: nat): (rs: seq<DomainRow>)
    ensures |rs| == |names|
    ensures forall i :: 0 <= i < |rs| ==> rs[i] == DomainRow(names[i], id, false)
  {
    if names == [] then [] else NewRows(names[..|names| - 1], id) + [DomainRow(names[|names| - 1], id, false)]
  }

  /** Inserting rows for `names` keeps Domain.Name unique: no name repeats and none is taken. */
  predicate Insertable(rows: seq<DomainRow>, names: seq<string>) {
    Distinct(names) && forall i :: 0 <= i < |names| ==> names[i] !in AllNames(rows)
  }

  /** `Where("ssl_id = ?", id).Delete(&Domain{})` without Unscoped: the rows are only marked. */
  function SoftDelete(rows: seq<DomainRow>, id: nat): (rs: seq<DomainRow>)
    ensures |rs| == |rows|
    ensures forall i :: 0 <= i < |rs| ==> rs[i].name == rows[i].name && rs[i].sslId == rows[i].sslId
    ensures forall i :: 0 <= i < |rs| ==> (rs[i].deleted <==> rows[i].deleted || rows[i].sslId == id)
  {
    seq(|rows|, i requires 0 <= i < |rows| =>
      if rows[i].sslId == id then rows[i].(deleted := true) else rows[i])
  }

  /** `Unscoped().Where("ssl_id = ?", id).Delete(&Domain{})`: the rows are removed. */
  function HardDelete(rows: seq<DomainRow>, id: nat): seq<DomainRow> {
    if rows == [] then []
    else
      var r := rows[|rows| - 1];
      HardDelete(rows[..|rows| - 1], id) + (if r.sslId == id then [] else [r])
  }

  /** A result together with the tables the operation leaves. */
  datatype Outcome<+R> = Outcome(result: R, tables: Tables)

  /** CreateSSL (dao/dao.go:37-39): one transaction inserting the record and then its
      Domains; a unique violation on either table rolls all of it back. */
  function Create(t: Tables, s: NewSsl): Outcome<Result<nat>> {
    if exists i :: 0 <= i < |t.ssls| && t.ssls[i].certId == s.certId then
      Outcome(Err(UniqueViolation("cert_id")), t)
    else if !Insertable(t.rows, s.domains) then
      Outcome(Err(UniqueViolation("name")), t)
    else
      var id := t.nextId;
      var row := SslRow(id, s.domainName, s.certId, s.certPem, s.keyPem, s.notAfter);
      Outcome(Ok(id), Tables(t.ssls + [row], t.rows + NewRows(s.domains, id), t.nextId + 1))
  }

  /** GetSSLByName (dao/dao.go:52-59): `Find` reports no error when nothing matches and
      leaves the zero struct. */
  function FindByName(t: Tables, name: string): Ssl {
    match First(t.ssls, ByDomainName(name))
    case None => ZeroSsl
    case Some(k) => Load(t, k)
  }

  /** GetSSLByCertID and GetSSLByID (dao/dao.go:71-78, 42-49): `First` reports a missing row. */
  function FirstByCertId(t: Tables, certId: string): Result<Ssl> {
    match First(t.ssls, ByCertId(certId))
    case None => Err(RecordNotFound)
    case Some(k) => Ok(Load(t, k))
  }

  /** GetDomains (dao/dao.go:80-95): the first record with that parent name, as its expiry
      and its hostnames. */
  function StoredDomains(t: Tables, domainName: string): Result<(int, seq<string>)> {
    match First(t.ssls, ByDomainName(domainName))
    case None => Err(RecordNotFound)
    case Some(k) => Ok((t.ssls[k].notAfter, ActiveDomains(t.rows, t.ssls[k].id)))
  }

  /** UpdateSSL (dao/dao.go:98-131): in one transaction, find the record by CertID, soft
      delete its Domain rows, insert one row per new name; any error rolls back. */
  function Update(t: Tables, certId: string, names: seq<string>): Outcome<Option<Error>> {
    match First(t.ssls, ByCertId(certId))
    case None => Outcome(Some(RecordNotFound), t)
    case Some(k) =>
      var id := t.ssls[k].id;
      var marked := SoftDelete(t.rows, id);
      if Insertable(marked, names) then Outcome(None, t.(rows := marked + NewRows(names, id)))
      else Outcome(Some(UniqueViolation("name")), t)
  }

  /** DeleteSSL (dao/dao.go:134-147): hard delete the record's Domain rows, then the record. */
  function Delete(t: Tables, certId: string): Outcome<Option<Error>> {
    match First(t.ssls, ByCertId(certId))
    case None => Outcome(Some(RecordNotFound), t)
    case Some(k) =>
      Outcome(None, Tables(t.ssls[..k] + t.ssls[k + 1..], HardDelete(t.rows, t.ssls[k].id), t.nextId))
  }

  // ---------------------------------------------------------------------------
  // Facts about the row helpers

  lemma AllNamesAppend(a: seq<DomainRow>, b: seq<DomainRow>)
    ensures AllNames(a + b) == AllNames(a) + AllNames(b)
  {
    forall n | n in AllNames(a + b) ensures n in AllNames(a) + AllNames(b) {
      var i :| 0 <= i < |a + b| && (a + b)[i].name == n;
      if i < |a| { assert a[i].name == n; } else { assert b[i - |a|].name == n; }
    }
    forall n | n in AllNames(a) + AllNames(b) ensures n in AllNames(a + b) {
      if n in AllNames(a) {
        var i :| 0 <= i < |a| && a[i].name == n;
        assert (a + b)[i].name == n;
      } else {
        var i :| 0 <= i < |b| && b[i].name == n;
        assert (a + b)[|a| + i].name == n;
      }
    }
  }

  lemma AllNamesNewRows(names: seq<string>, id: nat)
    ensures AllNames(NewRows(names, id)) == set i | 0 <= i < |names| :: names[i]
  {
    var rs := NewRows(names, id);
    forall n | n in AllNames(rs) ensures n in set i | 0 <= i < |names| :: names[i] {
      var i :| 0 <= i < |rs| && rs[i].name == n;
      assert names[i] == n;
    }
    forall n | n in set i | 0 <= i < |names| :: names[i] ensures n in AllNames(rs) {
      var i :| 0 <= i < |names| && names[i] == n;
      assert rs[i].name == n;
    }
  }

  /** Inserting the names one at a time: the next insert succeeds exactly when its name is
      not yet held by any row, the ones just inserted included. */
  lemma InsertableExtend(rows: seq<DomainRow>, names: seq<string>, i: nat, id: nat)
    requires i < |names| && Insertable(rows, names[..i])
    ensures Insertable(rows, names[..i + 1])
        <==> names[i] !in AllNames(rows + NewRows(names[..i], id))
  {
    AllNamesAppend(rows, NewRows(names[..i], id));
    AllNamesNewRows(names[..i], id);
    var pre := names[..i + 1];
    assert pre[..i] == names[..i] && pre[i] == names[i];
    if names[i] in AllNames(rows + NewRows(names[..i], id)) && names[i] !in AllNames(rows) {
      var j :| 0 <= j < i && names[..i][j] == names[i];
      assert pre[j] == pre[i];
    }
  }

  /** A name that collides while the list is inserted one name at a time makes the whole
      list fail the unique index. */
  lemma InsertCollides(rows: seq<DomainRow>, names: seq<string>, i: nat, id: nat)
    requires i < |names| && names[i] in AllNames(rows + NewRows(names[..i], id))
    ensures !Insertable(rows, names)
  {
    AllNamesAppend(rows, NewRows(names[..i], id));
    AllNamesNewRows(names[..i], id);
    if names[i] !in AllNames(rows) {
      var j :| 0 <= j < i && names[..i][j] == names[i];
      assert names[j] == names[i];
    }
  }

  /** A soft delete leaves every name taken. */
  lemma AllNamesSoftDelete(rows: seq<DomainRow>, id: nat)
    ensures AllNames(SoftDelete(rows, id)) == AllNames(rows)
  {
    var rs := SoftDelete(rows, id);
    forall n | n in AllNames(rows) ensures n in AllNames(rs) {
      var i :| 0 <= i < |rows| && rows[i].name == n;
      assert rs[i].name == n;
    }
    forall n | n in AllNames(rs) ensures n in AllNames(rows) {
      var i :| 0 <= i < |rs| && rs[i].name == n;
      assert rows[i].name == n;
    }
  }

  lemma {:induction false} PreloadAppend(a: seq<DomainRow>, b: seq<DomainRow>, id: nat)
    ensures Preload(a + b, id) == Preload(a, id) + Preload(b, id)
    decreases |b|
  {
    if b == [] {
      assert a + b == a;
    } else {
      var b' := b[..|b| - 1];
      assert (a + b)[..|a + b| - 1] == a + b';
      PreloadAppend(a, b', id);
    }
  }

  lemma {:induction false} NamesAppend(a: seq<DomainRow>, b: seq<DomainRow>)
    ensures Names(a + b) == Names(a) + Names(b)
    decreases |b|
  {
    if b == [] {
      assert a + b == a;
    } else {
      var b' := b[..|b| - 1];
      assert (a + b)[..|a + b| - 1] == a + b';
      NamesAppend(a, b');
    }
  }

  lemma {:induction false} ActiveDomainsAppend(a: seq<DomainRow>, b: seq<DomainRow>, id: nat)
    ensures ActiveDomains(a + b, id) == ActiveDomains(a, id) + ActiveDomains(b, id)
  {
    PreloadAppend(a, b, id);
    NamesAppend(Preload(a, id), Preload(b, id));
  }

  /** Fresh rows hold exactly their names under their own id, and nothing under any other. */
  lemma {:induction false} ActiveDomainsNewRows(names: seq<string>, id: nat, other: nat)
    ensures ActiveDomains(NewRows(names, id), id) == names
    ensures other != id ==> ActiveDomains(NewRows(names, id), other) == []
    decreases |names|
  {
    if names != [] {
      var init := names[..|names| - 1];
      var rs := NewRows(names, id);
      assert rs[..|rs| - 1] == NewRows(init, id);
      ActiveDomainsNewRows(init, id, other);
      assert Preload(rs, id) == Preload(NewRows(init, id), id) + [rs[|rs| - 1]];
      NamesAppend(Preload(NewRows(init, id), id), [rs[|rs| - 1]]);
      assert names == init + [names[|names| - 1]];
    }
  }

  /** After a soft delete the record holds nothing; other records keep their hostnames. */
  lemma {:induction false} ActiveDomainsSoftDelete(rows: seq<DomainRow>, id: nat, other: nat)
    ensures ActiveDomains(SoftDelete(rows, id), id) == []
    ensures other != id ==> ActiveDomains(SoftDelete(rows, id), other) == ActiveDomains(rows, other)
  {
    PreloadSoftDelete(rows, id, other);
  }

  lemma {:induction false} PreloadSoftDelete(rows: seq<DomainRow>, id: nat, other: nat)
    ensures Preload(SoftDelete(rows, id), id) == []
    ensures other != id ==> Preload(SoftDelete(rows, id), other) == Preload(rows, other)
    decreases |rows|
  {
    if rows != [] {
      var init := rows[..|rows| - 1];
      var rs := SoftDelete(rows, id);
      assert rs[..|rs| - 1] == SoftDelete(init, id);
      PreloadSoftDelete(init, id, other);
    }
  }

  /** After a hard delete no row points at the record; other records keep their hostnames. */
  lemma {:induction false} HardDeleteRows(rows: seq<DomainRow>, id: nat, other: nat)
    ensures forall i :: 0 <= i < |HardDelete(rows, id)| ==> HardDelete(rows, id)[i].sslId != id
    ensures forall r :: r in HardDelete(rows, id) ==> r in rows
    ensures other != id ==> ActiveDomains(HardDelete(rows, id), other) == ActiveDomains(rows, other)
  {
    PreloadHardDelete(rows, id, other);
  }

  lemma {:induction false} PreloadHardDelete(rows: seq<DomainRow>, id: nat, other: nat)
    ensures forall i :: 0 <= i < |HardDelete(rows, id)| ==> HardDelete(rows, id)[i].sslId != id
    ensures forall r :: r in HardDelete(rows, id) ==> r in rows
    ensures other != id ==> Preload(HardDelete(rows, id), other) == Preload(rows, other)
    decreases |rows|
  {
    if rows != [] {
      var init := rows[..|rows| - 1];
      PreloadHardDelete(init, id, other);
      var last := rows[|rows| - 1];
      var hd := HardDelete(init, id);
      var tail := if last.sslId == id then [] else [last];
      PreloadAppend(hd, tail, other);
      assert HardDelete(rows, id) == hd + tail;
      if other != id {
        assert Preload(tail, other) == (if !last.deleted && last.sslId == other then [last] else []) by {
          if tail != [] { assert tail[..0] == []; }
        }
      }
    }
  }

  lemma HardDeleteKeepsNamesUnique(rows: seq<DomainRow>, id: nat)
    requires NamesUnique(rows)
    ensures NamesUnique(HardDelete(rows, id))
    decreases |rows|
  {
    if rows != [] {
      var init := rows[..|rows| - 1];
      HardDeleteKeepsNamesUnique(init, id);
      HardDeleteRows(init, id, id);
      var rs := HardDelete(rows, id);
      var last := rows[|rows| - 1];
      forall r | r in HardDelete(init, id) ensures r.name != last.name {
        var i :| 0 <= i < |init| && init[i] == r;
      }
    }
  }

  // ---------------------------------------------------------------------------
  // The schema's invariants, and what each operation does to the tables

  /** dao/model.go:22: a hostname belongs to at most one record. */
  lemma HostnameInOneRecord(t: Tables, id1: nat, id2: nat, n: string)
    requires Valid(t)
    requires n in ActiveDomains(t.rows, id1) && n in ActiveDomains(t.rows, id2)
    ensures id1 == id2
  {
    OnlyOneRow(t.rows, id1, id2, n);
  }

  lemma OnlyOneRow(rows: seq<DomainRow>, id1: nat, id2: nat, n: string)
    requires forall i, j :: 0 <= i < j < |rows| ==> rows[i].name != rows[j].name
    requires n in ActiveDomains(rows, id1) && n in ActiveDomains(rows, id2)
    ensures id1 == id2
  {
    ActiveNamesFromRows(rows, id1, n);
    ActiveNamesFromRows(rows, id2, n);
    var i1 :| 0 <= i1 < |rows| && rows[i1].name == n && rows[i1].sslId == id1 && !rows[i1].deleted;
    var i2 :| 0 <= i2 < |rows| && rows[i2].name == n && rows[i2].sslId == id2 && !rows[i2].deleted;
    assert i1 == i2;
  }

  lemma {:induction false} ActiveNamesFromRows(rows: seq<DomainRow>, id: nat, n: string)
    requires n in ActiveDomains(rows, id)
    ensures exists i :: 0 <= i < |rows| && rows[i].name == n && rows[i].sslId == id && !rows[i].deleted
    decreases |rows|
  {
    var init := rows[..|rows| - 1];
    var last := rows[|rows| - 1];
    assert rows == init + [last];
    ActiveDomainsAppend(init, [last], id);
    if n in ActiveDomains(init, id) {
      ActiveNamesFromRows(init, id, n);
      var i :| 0 <= i < |init| && init[i].name == n && init[i].sslId == id && !init[i].deleted;
      assert rows[i] == init[i];
    } else {
      assert Names(Preload([last], id)) == (if !last.deleted && last.sslId == id then [last.name] else []);
      assert rows[|rows| - 1] == last;
    }
  }

  /** dao/model.go:11: DomainName is not unique, so two records may share a parent domain. */
  lemma SharedParentAllowed()
    ensures exists t: Tables :: Valid(t) && |t.ssls| == 2 && t.ssls[0].domainName == t.ssls[1].domainName
  {
    var t := Tables([SslRow(1, "x.com", "c1", "", "", 0), SslRow(2, "x.com", "c2", "", "", 0)], [], 3);
    assert Valid(t);
  }

  lemma CreateKeepsValid(t: Tables, s: NewSsl)
    requires Valid(t)
    ensures Valid(Create(t, s).tables)
  {
    var o := Create(t, s);
    if o.result.Ok? {
      var id := t.nextId;
      var t' := o.tables;
      var added := NewRows(s.domains, id);
      IdsAppend(t.ssls, t'.ssls[|t.ssls|]);
      InsertKeepsNamesUnique(t.rows, s.domains, id);
      forall i | 0 <= i < |t'.rows| ensures t'.rows[i].sslId in Ids(t'.ssls) {
        if i >= |t.rows| { assert t'.rows[i] == added[i - |t.rows|]; }
      }
    }
  }

  /** Appending a record adds exactly its id. */
  lemma IdsAppend(ssls: seq<SslRow>, r: SslRow)
    ensures Ids(ssls + [r]) == Ids(ssls) + {r.id}
  {
    var all := ssls + [r];
    forall x | x in Ids(all) ensures x in Ids(ssls) + {r.id} {
      var i :| 0 <= i < |all| && all[i].id == x;
      if i < |ssls| { assert ssls[i].id == x; }
    }
    forall x | x in Ids(ssls) + {r.id} ensures x in Ids(all) {
      if x == r.id { assert all[|ssls|].id == x; }
      else { var i :| 0 <= i < |ssls| && ssls[i].id == x; assert all[i].id == x; }
    }
  }

  /** Inserting names the unique index accepts keeps Domain.Name unique. */
  lemma InsertKeepsNamesUnique(rows: seq<DomainRow>, names: seq<string>, id: nat)
    requires NamesUnique(rows) && Insertable(rows, names)
    ensures NamesUnique(rows + NewRows(names, id))
  {
    var all := rows + NewRows(names, id);
    forall i, j | 0 <= i < j < |all| ensures all[i].name != all[j].name {
      if j >= |rows| && i < |rows| {
        assert all[j].name == names[j - |rows|];
        assert all[i].name in AllNames(rows);
      } else if i >= |rows| {
        assert all[i].name == names[i - |rows|];
        assert all[j].name == names[j - |rows|];
      }
    }
  }

  /** A successful create stores exactly the requested record and leaves every other
      record's hostnames as they were. */
  lemma CreateStoresRecord(t: Tables, s: NewSsl, other: nat)
    requires Valid(t)
    requires Create(t, s).result.Ok?
    ensures var o := Create(t, s); var id := o.result.value;
      && id == t.nextId && id > 0
      && FirstByCertId(o.tables, s.certId) == Ok(Created(s, id))
      && (other != id ==> ActiveDomains(o.tables.rows, other) == ActiveDomains(t.rows, other))
  {
    var id := t.nextId;
    var row := SslRow(id, s.domainName, s.certId, s.certPem, s.keyPem, s.notAfter);
    var added := NewRows(s.domains, id);
    assert Create(t, s).tables == Tables(t.ssls + [row], t.rows + added, id + 1);
    assert forall i :: 0 <= i < |t.ssls| ==> t.ssls[i].certId != s.certId;
    FirstAppendMiss(t.ssls, row, ByCertId(s.certId));
    assert (t.ssls + [row])[|t.ssls|] == row;
    assert id !in Ids(t.ssls);
    NoRowsForUnusedId(t, id);
    ActiveDomainsAppend(t.rows, added, id);
    ActiveDomainsNewRows(s.domains, id, id);
    assert ActiveDomains(t.rows + added, id) == s.domains;
    ActiveDomainsAppend(t.rows, added, other);
    ActiveDomainsNewRows(s.domains, id, other);
  }

  /** Rows never point at an id that no record has. */
  lemma NoRowsForUnusedId(t: Tables, id: nat)
    requires Valid(t)
    requires id !in Ids(t.ssls)
    ensures ActiveDomains(t.rows, id) == []
  {
    if ActiveDomains(t.rows, id) != [] {
      var n := ActiveDomains(t.rows, id)[0];
      ActiveNamesFromRows(t.rows, id, n);
    }
  }

  /** First on a table grown by one row that earlier rows do not match finds that row. */
  lemma FirstAppendMiss(ssls: seq<SslRow>, r: SslRow, w: Where)
    requires forall i :: 0 <= i < |ssls| ==> !Matches(ssls[i], w)
    requires Matches(r, w)
    ensures First(ssls + [r], w) == Some(|ssls|)
  {
    var k := First(ssls + [r], w);
    assert (ssls + [r])[|ssls|] == r;
  }

  /** Create refuses a CertID or a hostname that the tables already hold, and changes nothing. */
  lemma CreateRejectsTaken(t: Tables, s: NewSsl)
    requires (exists i :: 0 <= i < |t.ssls| && t.ssls[i].certId == s.certId)
          || (exists j :: 0 <= j < |s.domains| && s.domains[j] in AllNames(t.rows))
    ensures Create(t, s).result.Err? && Create(t, s).tables == t
  {
  }

  lemma UpdateKeepsValid(t: Tables, certId: string, names: seq<string>)
    requires Valid(t)
    ensures Valid(Update(t, certId, names).tables)
  {
    var o := Update(t, certId, names);
    if o.result.None? {
      var k := First(t.ssls, ByCertId(certId)).value;
      var id := t.ssls[k].id;
      var marked := SoftDelete(t.rows, id);
      var t' := o.tables;
      AllNamesSoftDelete(t.rows, id);
      AllNamesNewRows(names, id);
      forall i, j | 0 <= i < j < |t'.rows| ensures t'.rows[i].name != t'.rows[j].name {
        if j >= |marked| && i < |marked| {
          assert t'.rows[j].name == names[j - |marked|];
          assert t'.rows[i].name in AllNames(marked);
        } else if i >= |marked| {
          assert t'.rows[i].name == names[i - |marked|];
          assert t'.rows[j].name == names[j - |marked|];
        } else {
          assert t'.rows[i].name == t.rows[i].name && t'.rows[j].name == t.rows[j].name;
        }
      }
      forall i | 0 <= i < |t'.rows| ensures t'.rows[i].sslId in Ids(t'.ssls) {
        if i >= |marked| { assert t'.rows[i].sslId == id; }
        else { assert t'.rows[i].sslId == t.rows[i].sslId; }
      }
    }
  }

  /** dao/dao.go:98-131: UpdateSSL is all-or-nothing. On success the record's hostnames are
      exactly the new list and every other record keeps its own; on failure nothing changes. */
  lemma UpdateReplacesDomains(t: Tables, certId: string, names: seq<string>, other: nat)
    requires Valid(t)
    ensures var o := Update(t, certId, names);
      && o.tables.ssls == t.ssls && o.tables.nextId == t.nextId
      && (o.result.Some? ==> o.tables == t)
      && (o.result.None? ==>
            var k := First(t.ssls, ByCertId(certId)).value;
            && ActiveDomains(o.tables.rows, t.ssls[k].id) == names
            && (other != t.ssls[k].id ==> ActiveDomains(o.tables.rows, other) == ActiveDomains(t.rows, other)))
  {
    var o := Update(t, certId, names);
    if o.result.None? {
      var k := First(t.ssls, ByCertId(certId)).value;
      var id := t.ssls[k].id;
      var marked := SoftDelete(t.rows, id);
      ActiveDomainsAppend(marked, NewRows(names, id), id);
      ActiveDomainsAppend(marked, NewRows(names, id), other);
      ActiveDomainsSoftDelete(t.rows, id, other);
      ActiveDomainsNewRows(names, id, other);
    }
  }

  /** dao/dao.go:110-113: an unknown CertID is reported and nothing changes. */
  lemma UpdateUnknownCertId(t: Tables, certId: string, names: seq<string>)
    requires forall i :: 0 <= i < |t.ssls| ==> t.ssls[i].certId != certId
    ensures Update(t, certId, names) == Outcome(Some(RecordNotFound), t)
  {
  }

  /** dao/dao.go:117: the old rows are only soft deleted and still hold their names under
      the unique index, so inserting any name some Domain row still holds, soft-deleted
      rows included, fails. In particular writing back a hostname the record already
      holds is refused. */
  lemma UpdateRejectsKnownName(t: Tables, certId: string, names: seq<string>, j: nat)
    requires j < |names| && names[j] in AllNames(t.rows)
    ensures Update(t, certId, names).result.Some?
    ensures Update(t, certId, names).tables == t
  {
    var w := First(t.ssls, ByCertId(certId));
    if w.Some? {
      AllNamesSoftDelete(t.rows, t.ssls[w.value].id);
    }
  }

  lemma StoredNamesAreTaken(t: Tables, id: nat, n: string)
    requires n in ActiveDomains(t.rows, id)
    ensures n in AllNames(t.rows)
  {
    ActiveNamesFromRows(t.rows, id, n);
  }

  lemma DeleteKeepsValid(t: Tables, certId: string)
    requires Valid(t)
    ensures Valid(Delete(t, certId).tables)
  {
    var w := First(t.ssls, ByCertId(certId));
    if w.Some? {
      var k := w.value;
      var id := t.ssls[k].id;
      var rest := t.ssls[..k] + t.ssls[k + 1..];
      var rows := HardDelete(t.rows, id);
      assert Delete(t, certId).tables == Tables(rest, rows, t.nextId);
      RemoveRecord(t, k);
      HardDeleteRows(t.rows, id, id);
      HardDeleteKeepsNamesUnique(t.rows, id);
      forall i | 0 <= i < |rows| ensures rows[i].sslId in Ids(rest) {
        var r := rows[i];
        assert r in t.rows;
        var m :| 0 <= m < |t.rows| && t.rows[m] == r;
      }
    }
  }

  /** Taking one record out keeps the SSL table's constraints and frees exactly its id. */
  lemma RemoveRecord(t: Tables, k: nat)
    requires Valid(t) && k < |t.ssls|
    ensures var rest := t.ssls[..k] + t.ssls[k + 1..];
      && Ids(rest) == Ids(t.ssls) - {t.ssls[k].id}
      && (forall i :: 0 <= i < |rest| ==> 0 < rest[i].id < t.nextId)
      && (forall i, j :: 0 <= i < j < |rest| ==> rest[i].id < rest[j].id)
      && (forall i, j :: 0 <= i < j < |rest| ==> rest[i].certId != rest[j].certId)
  {
    RemoveAt(t.ssls, k);
    RemoveKeepsOrder(t.ssls, k, t.nextId);
    RemoveFreesId(t.ssls, k);
  }

  /** Entry i of the table without entry k is entry Skip(i, k) of the full table. */
  lemma RemoveAt(ssls: seq<SslRow>, k: nat)
    requires k < |ssls|
    ensures |ssls[..k] + ssls[k + 1..]| == |ssls| - 1
    ensures forall i :: 0 <= i < |ssls| - 1 ==> (ssls[..k] + ssls[k + 1..])[i] == ssls[Skip(i, k)]
  {
    var rest := ssls[..k] + ssls[k + 1..];
    forall i | 0 <= i < |rest| ensures rest[i] == ssls[Skip(i, k)] {
      if i < k { assert rest[i] == ssls[..k][i]; } else { assert rest[i] == ssls[k + 1..][i - k]; }
    }
  }

  lemma RemoveKeepsOrder(ssls: seq<SslRow>, k: nat, nextId: nat)
    requires k < |ssls|
    requires forall i :: 0 <= i < |ssls| ==> 0 < ssls[i].id < nextId
    requires forall i, j :: 0 <= i < j < |ssls| ==> ssls[i].id < ssls[j].id
    requires forall i, j :: 0 <= i < j < |ssls| ==> ssls[i].certId != ssls[j].certId
    ensures var rest := ssls[..k] + ssls[k + 1..];
      && (forall i :: 0 <= i < |rest| ==> 0 < rest[i].id < nextId)
      && (forall i, j :: 0 <= i < j < |rest| ==> rest[i].id < rest[j].id)
      && (forall i, j :: 0 <= i < j < |rest| ==> rest[i].certId != rest[j].certId)
  {
    var rest := ssls[..k] + ssls[k + 1..];
    RemoveAt(ssls, k);
    forall i, j | 0 <= i < j < |rest| ensures rest[i].id < rest[j].id && rest[i].certId != rest[j].certId {
      assert rest[i] == ssls[Skip(i, k)] && rest[j] == ssls[Skip(j, k)];
    }
    forall i | 0 <= i < |rest| ensures 0 < rest[i].id < nextId {
      assert rest[i] == ssls[Skip(i, k)];
    }
  }

  lemma RemoveFreesId(ssls: seq<SslRow>, k: nat)
    requires k < |ssls|
    requires forall i, j :: 0 <= i < j < |ssls| ==> ssls[i].id < ssls[j].id
    ensures Ids(ssls[..k] + ssls[k + 1..]) == Ids(ssls) - {ssls[k].id}
  {
    var rest := ssls[..k] + ssls[k + 1..];
    RemoveAt(ssls, k);
    forall x | x in Ids(rest) ensures x in Ids(ssls) - {ssls[k].id} {
      var i :| 0 <= i < |rest| && rest[i].id == x;
      assert rest[i] == ssls[Skip(i, k)];
    }
    forall x | x in Ids(ssls) - {ssls[k].id} ensures x in Ids(rest) {
      var i :| 0 <= i < |ssls| && ssls[i].id == x;
      assert i != k;
      var i' := if i < k then i else i - 1;
      assert rest[i'] == ssls[Skip(i', k)];
    }
  }

  /** The index in the full table of entry `i` of the table without entry `k`. */
  function Skip(i: nat, k: nat): nat {
    if i < k then i else i + 1
  }

  /** dao/dao.go:134-147: DeleteSSL removes the record and every Domain row pointing at it,
      soft-deleted ones included, and leaves the other records and their hostnames alone;
      an unknown CertID is reported and nothing changes. */
  lemma DeleteCascades(t: Tables, certId: string, other: nat)
    requires Valid(t)
    ensures var o := Delete(t, certId);
      && (o.result.Some? <==> First(t.ssls, ByCertId(certId)).None?)
      && (o.result.Some? ==> o.result.value == RecordNotFound && o.tables == t)
      && (o.result.None? ==>
            var k := First(t.ssls, ByCertId(certId)).value;
            && FirstByCertId(o.tables, certId) == Err(RecordNotFound)
            && (forall i :: 0 <= i < |o.tables.rows| ==> o.tables.rows[i].sslId != t.ssls[k].id)
            && (other != t.ssls[k].id ==> ActiveDomains(o.tables.rows, other) == ActiveDomains(t.rows, other))
            && |o.tables.ssls| == |t.ssls| - 1)
  {
    var o := Delete(t, certId);
    if o.result.None? {
      var k := First(t.ssls, ByCertId(certId)).value;
      var t' := o.tables;
      HardDeleteRows(t.rows, t.ssls[k].id, other);
      assert forall i :: 0 <= i < |t'.ssls| ==> t'.ssls[i] == if i < k then t.ssls[i] else t.ssls[i + 1];
      assert forall i :: 0 <= i < |t'.ssls| ==> t'.ssls[i].certId != certId;
    }
  }
}
