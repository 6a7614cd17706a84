/** SSLDao of dao/dao.go: the certificate store as an object whose two tables change in
    place. Every method answers what module SslModel says the query or the transaction
    does; an engine that cannot be reached (a closed file, a locked database) is the flag
    `unavailable`, under which every call fails and nothing changes. */
module Dao {
  import opened Common
  import opened SslModel

  class SslDao {
    var ssls: seq<SslRow>
    var rows: seq<DomainRow>
    var nextId: nat
    /** The database engine fails every statement. */
    var unavailable: bool

    function State(): Tables
      reads this
    {
      Tables(ssls, rows, nextId)
    }

    ghost predicate Valid()
      reads this
    {
      SslModel.Valid(State())
    }

    /** NewSSLDao (dao/dao.go:17-34) over a database file holding `t`; AutoMigrate keeps rows. */
    constructor(t: Tables)
      requires SslModel.Valid(t)
      ensures Valid() && State() == t && !unavailable
    {
      ssls, rows, nextId := t.ssls, t.rows, t.nextId;
      unavailable := false;
    }

    /** CreateSSL (dao/dao.go:37-39): the record and its Domains in one transaction. The
        id the engine assigns comes back as the result. */
    method CreateSsl(s: NewSsl) returns (r: Result<nat>)
      requires Valid()
      modifies this
      ensures Valid() && unavailable == old(unavailable)
      ensures old(unavailable) ==> r == Err(EngineFault) && State() == old(State())
      ensures !old(unavailable) ==> Outcome(r, State()) == Create(old(State()), s)
    {
      if unavailable {
        return Err(EngineFault);
      }
      CreateKeepsValid(State(), s);
      var o := Create(State(), s);
      ssls, rows, nextId := o.tables.ssls, o.tables.rows, o.tables.nextId;
      r := o.result;
    }

    /** GetSSLByName (dao/dao.go:52-59). */
    method GetSslByName(name: string) returns (r: Result<Ssl>)
      ensures unavailable ==> r == Err(EngineFault)
      ensures !unavailable ==> r == Ok(FindByName(State(), name))
    {
      if unavailable {
        return Err(EngineFault);
      }
      r := Ok(FindByName(State(), name));
    }

    /** GetSSLByCertID (dao/dao.go:71-78); GetSSLByID (lines 42-49) runs the same query. */
    method GetSslByCertId(certId: string) returns (r: Result<Ssl>)
      ensures unavailable ==> r == Err(EngineFault)
      ensures !unavailable ==> r == FirstByCertId(State(), certId)
    {
      if unavailable {
        return Err(EngineFault);
      }
      r := FirstByCertId(State(), certId);
    }

    /** GetSSLS (dao/dao.go:61-68): every record with its Domains, in id order. */
    method GetSsls() returns (r: Result<seq<Ssl>>)
      ensures unavailable ==> r == Err(EngineFault)
      ensures !unavailable ==> r.Ok? && |r.value| == |ssls|
      ensures !unavailable ==> forall k :: 0 <= k < |ssls| ==> r.value[k] == Load(State(), k)
    {
      if unavailable {
        return Err(EngineFault);
      }
      var all: seq<Ssl> := [];
      for k := 0 to |ssls|
        invariant |all| == k
        invariant forall m :: 0 <= m < k ==> all[m] == Load(State(), m)
      {
        all := all + [Load(State(), k)];
      }
      r := Ok(all);
    }

    /** GetDomains (dao/dao.go:80-95): load the first record with that parent name, then
        collect the names of its preloaded Domains one by one. */
    method GetDomains(domainName: string) returns (r: Result<(int, seq<string>)>)
      ensures unavailable ==> r == Err(EngineFault)
      ensures !unavailable ==> r == StoredDomains(State(), domainName)
    {
      if unavailable {
        return Err(EngineFault);
      }
      var w := First(ssls, ByDomainName(domainName));
      if w.None? {
        return Err(RecordNotFound);
      }
      var ssl := ssls[w.value];
      var preloaded := Preload(rows, ssl.id);
      var names: seq<string> := [];
      for i := 0 to |preloaded|
        invariant names == Names(preloaded[..i])
      {
        assert preloaded[..i + 1][..i] == preloaded[..i];
        names := names + [preloaded[i].name];
      }
      assert preloaded[..|preloaded|] == preloaded;
      r := Ok((ssl.notAfter, names));
    }

    /** UpdateSSL (dao/dao.go:98-131): find the record, soft delete its Domain rows, then
        insert one row per new name; the first insert that breaks the unique index on
        Domain.Name makes the transaction roll back. */
    method UpdateSsl(certId: string, newDomains: seq<string>) returns (err: Option<Error>)
      requires Valid()
      modifies this
      ensures Valid() && unavailable == old(unavailable)
      ensures old(unavailable) ==> err == Some(EngineFault) && State() == old(State())
      ensures !old(unavailable) ==> Outcome(err, State()) == Update(old(State()), certId, newDomains)
    {
      if unavailable {
        return Some(EngineFault);
      }
      UpdateKeepsValid(State(), certId, newDomains);
      var before := rows;
      var w := First(ssls, ByCertId(certId));
      if w.None? {
        return Some(RecordNotFound);
      }
      var id := ssls[w.value].id;
      var marked := SoftDelete(rows, id);
      rows := marked;
      var ok := InsertDomains(newDomains, id);
      if !ok {
        rows := before;
        return Some(UniqueViolation("name"));
      }
      err := None;
    }

    /** The insert loop of UpdateSSL (dao/dao.go:122-127): one Domain row per name, stopping
        at the first name already taken. `ok` says whether every insert succeeded. */
    method InsertDomains(names: seq<string>, id: nat) returns (ok: bool)
      modifies this
      ensures ssls == old(ssls) && nextId == old(nextId) && unavailable == old(unavailable)
      ensures ok <==> Insertable(old(rows), names)
      ensures ok ==> rows == old(rows) + NewRows(names, id)
    {
      var i := 0;
      while i < |names|
        invariant 0 <= i <= |names|
        invariant Insertable(old(rows), names[..i])
        invariant rows == old(rows) + NewRows(names[..i], id)
        invariant ssls == old(ssls) && nextId == old(nextId) && unavailable == old(unavailable)
      {
        InsertableExtend(old(rows), names, i, id);
        if names[i] in AllNames(rows) {
          InsertCollides(old(rows), names, i, id);
          return false;
        }
        assert names[..i + 1][..i] == names[..i];
        rows := rows + [DomainRow(names[i], id, false)];
        i := i + 1;
      }
      assert names[..i] == names;
      ok := true;
    }

    /** DeleteSSL (dao/dao.go:134-147): find the record, hard delete its Domain rows, then
        hard delete the record. */
    method DeleteSsl(certId: string) returns (err: Option<Error>)
      requires Valid()
      modifies this
      ensures Valid() && unavailable == old(unavailable)
      ensures old(unavailable) ==> err == Some(EngineFault) && State() == old(State())
      ensures !old(unavailable) ==> Outcome(err, State()) == Delete(old(State()), certId)
    {
      if unavailable {
        return Some(EngineFault);
      }
      DeleteKeepsValid(State(), certId);
      var w := First(ssls, ByCertId(certId));
      if w.None? {
        return Some(RecordNotFound);
      }
      var k := w.value;
      rows := HardDelete(rows, ssls[k].id);
      ssls := ssls[..k] + ssls[k + 1..];
      err := None;
    }
  }
}
