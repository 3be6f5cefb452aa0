/** The list of assets a seed asks its caller to upload. */
module MissingAssets {
  import opened Store

  /** The request's assets the server does not have, in order. */
  function Absent(t: Tables, ds: seq<Descriptor>): seq<Descriptor> {
    if ds == [] then []
    else
      var n := |ds| - 1;
      Absent(t, ds[..n]) + if ds[n].hash !in t.assets then [ds[n]] else []
  }

  lemma AbsentSnoc(t: Tables, ds: seq<Descriptor>, d: Descriptor)
    ensures Absent(t, ds + [d]) == Absent(t, ds) + if d.hash !in t.assets then [d] else []
  {
    assert (ds + [d])[..|ds|] == ds;
  }

  lemma {:induction false} AbsentIff(t: Tables, ds: seq<Descriptor>, d: Descriptor)
    ensures d in Absent(t, ds) <==> d in ds && d.hash !in t.assets
  {
    if ds == [] {
    } else {
      var n := |ds| - 1;
      AbsentIff(t, ds[..n], d);
      assert ds == ds[..n] + [ds[n]];
    }
  }

  lemma {:induction false} MissingAmongJoin(t: Tables, rev: nat, ls: seq<AssetLink>, ms: seq<AssetLink>)
    ensures MissingAmong(t, rev, ls + ms) == MissingAmong(t, rev, ls) + MissingAmong(t, rev, ms)
  {
    if ms == [] {
      assert ls + ms == ls;
    } else {
      var n := |ms| - 1;
      assert (ls + ms)[..|ls| + n] == ls + ms[..n];
      MissingAmongJoin(t, rev, ls, ms[..n]);
    }
  }

  lemma {:induction false} NoneMissing(t: Tables, rev: nat, ls: seq<AssetLink>)
    requires forall i :: 0 <= i < |ls| ==> ls[i].revision < rev
    ensures MissingAmong(t, rev, ls) == []
  {
    if ls == [] {
    } else {
      NoneMissing(t, rev, ls[..|ls| - 1]);
    }
  }

  lemma {:induction false} MissingOfLinks(p: Paths, t: Tables, rev: nat, ds: seq<Descriptor>)
    ensures MissingAmong(t, rev, LinksOf(p, rev, ds)) == LinksOf(p, rev, Absent(t, ds))
  {
    if ds == [] {
    } else {
      var n := |ds| - 1;
      MissingOfLinks(p, t, rev, ds[..n]);
      assert LinksOf(p, rev, ds)[..n] == LinksOf(p, rev, ds[..n]);
    }
  }

  /** The rows the missing query returns for a fresh revision are those of the absent assets. */
  lemma MissingOfSeed(p: Paths, t: Tables, uid: User, req: SeedRequest, id: string)
    requires Valid(t) && Seed(p, t, uid, req, id).1.Seeded?
    ensures var (t', reply) := Seed(p, t, uid, req, id);
      && reply.missing == Requested(p, LinksOf(p, |t.revisions|, Absent(t, req.assets)), req.assets)
      && t'.assets == t.assets
  {
    SeedShape(p, t, uid, req, id);
    MissingOfNewLinks(p, t, Seed(p, t, uid, req, id).0, req.assets);
  }

  lemma MissingOfNewLinks(p: Paths, t: Tables, t': Tables, ds: seq<Descriptor>)
    requires Valid(t) && t'.assets == t.assets
    requires t'.links == t.links + LinksOf(p, |t.revisions|, ds)
    ensures MissingLinks(t', |t.revisions|) == LinksOf(p, |t.revisions|, Absent(t, ds))
  {
    var rev := |t.revisions|;
    MissingAmongJoin(t', rev, t.links, LinksOf(p, rev, ds));
    NoneMissing(t', rev, t.links);
    MissingOfLinks(p, t', rev, ds);
    AbsentDepends(t, t', ds);
  }

  lemma {:induction false} AbsentDepends(t: Tables, t': Tables, ds: seq<Descriptor>)
    requires t.assets == t'.assets
    ensures Absent(t, ds) == Absent(t', ds)
  {
    if ds == [] {
    } else {
      AbsentDepends(t, t', ds[..|ds| - 1]);
    }
  }

  lemma {:induction false} NamedIff(p: Paths, name: string, ds: seq<Descriptor>, d: Descriptor)
    ensures d in Named(p, name, ds) <==> d in ds && p.clean(d.fileName) == name
  {
    if ds == [] {
    } else {
      var n := |ds| - 1;
      NamedIff(p, name, ds[..n], d);
      assert ds == ds[..n] + [ds[n]];
    }
  }

  /** One of the rows has the descriptor's cleaned name. */
  ghost predicate SharesName(p: Paths, rows: seq<AssetLink>, d: Descriptor) {
    exists i :: 0 <= i < |rows| && rows[i].fileName == p.clean(d.fileName)
  }

  lemma SharesNameSnoc(p: Paths, rows: seq<AssetLink>, row: AssetLink, d: Descriptor)
    ensures SharesName(p, rows + [row], d) <==> SharesName(p, rows, d) || row.fileName == p.clean(d.fileName)
  {
    var all := rows + [row];
    assert all[|rows|] == row && forall k :: 0 <= k < |rows| ==> all[k] == rows[k];
  }

  lemma {:induction false} RequestedIff(p: Paths, rows: seq<AssetLink>, ds: seq<Descriptor>, d: Descriptor)
    ensures d in Requested(p, rows, ds) <==> d in ds && SharesName(p, rows, d)
  {
    if rows == [] {
    } else {
      var n := |rows| - 1;
      RequestedIff(p, rows[..n], ds, d);
      NamedIff(p, rows[n].fileName, ds, d);
      SharesNameSnoc(p, rows[..n], rows[n], d);
      assert rows == rows[..n] + [rows[n]];
    }
  }

  /** An absent asset of the request has the descriptor's cleaned name. */
  ghost predicate SharesAbsent(p: Paths, t: Tables, ds: seq<Descriptor>, d: Descriptor) {
    exists e :: e in ds && e.hash !in t.assets && p.clean(e.fileName) == p.clean(d.fileName)
  }

  lemma AbsentSharesRow(p: Paths, t: Tables, rev: nat, ds: seq<Descriptor>, d: Descriptor, e: Descriptor)
    requires e in ds && e.hash !in t.assets && p.clean(e.fileName) == p.clean(d.fileName)
    ensures SharesName(p, LinksOf(p, rev, Absent(t, ds)), d)
  {
    AbsentIff(t, ds, e);
    var i :| 0 <= i < |Absent(t, ds)| && Absent(t, ds)[i] == e;
    assert LinksOf(p, rev, Absent(t, ds))[i].fileName == p.clean(d.fileName);
  }

  lemma RowSharesAbsent(p: Paths, t: Tables, rev: nat, ds: seq<Descriptor>, d: Descriptor)
    requires SharesName(p, LinksOf(p, rev, Absent(t, ds)), d)
    ensures SharesAbsent(p, t, ds, d)
  {
    var absent := Absent(t, ds);
    var i :| 0 <= i < |absent| && LinksOf(p, rev, absent)[i].fileName == p.clean(d.fileName);
    assert absent[i] in absent;
    AbsentIff(t, ds, absent[i]);
  }

  /** An entry is listed exactly if it is the request's and shares its cleaned name with an absent one. */
  lemma MissingListIff(p: Paths, t: Tables, uid: User, req: SeedRequest, id: string, d: Descriptor)
    requires Valid(t) && Seed(p, t, uid, req, id).1.Seeded?
    ensures d in Seed(p, t, uid, req, id).1.missing <==> d in req.assets && SharesAbsent(p, t, req.assets, d)
  {
    MissingOfSeed(p, t, uid, req, id);
    RequestedIff(p, LinksOf(p, |t.revisions|, Absent(t, req.assets)), req.assets, d);
    if SharesAbsent(p, t, req.assets, d) {
      var e :| e in req.assets && e.hash !in t.assets && p.clean(e.fileName) == p.clean(d.fileName);
      AbsentSharesRow(p, t, |t.revisions|, req.assets, d, e);
    }
    if SharesName(p, LinksOf(p, |t.revisions|, Absent(t, req.assets)), d) {
      RowSharesAbsent(p, t, |t.revisions|, req.assets, d);
    }
  }

  lemma AbsentIsListed(p: Paths, t: Tables, uid: User, req: SeedRequest, id: string, d: Descriptor)
    requires Valid(t) && Seed(p, t, uid, req, id).1.Seeded? && d in req.assets
    ensures d.hash in t.assets || d in Seed(p, t, uid, req, id).1.missing
  {
    if d.hash !in t.assets {
      assert SharesAbsent(p, t, req.assets, d);
      MissingListIff(p, t, uid, req, id, d);
    }
  }

  /**
   For any request: every entry is one of the request's own descriptors, every absent asset is
   listed, and what is listed shares its cleaned name with an absent one.
   */
  lemma MissingListIsComplete(p: Paths, t: Tables, uid: User, req: SeedRequest, id: string)
    requires Valid(t) && Seed(p, t, uid, req, id).1.Seeded?
    ensures forall d :: d in Seed(p, t, uid, req, id).1.missing <==> d in req.assets && SharesAbsent(p, t, req.assets, d)
    ensures forall d :: d in req.assets && d.hash !in t.assets ==> d in Seed(p, t, uid, req, id).1.missing
  {
    forall d
      ensures d in Seed(p, t, uid, req, id).1.missing <==> d in req.assets && SharesAbsent(p, t, req.assets, d)
    {
      MissingListIff(p, t, uid, req, id, d);
    }
    forall d | d in req.assets && d.hash !in t.assets ensures d in Seed(p, t, uid, req, id).1.missing {
      AbsentIsListed(p, t, uid, req, id, d);
    }
  }

  // ---------- exactness ----------

  /** No absent asset shares its cleaned name with another entry. */
  ghost predicate AbsentNamesUnique(p: Paths, t: Tables, ds: seq<Descriptor>) {
    forall i, j :: 0 <= i < |ds| && 0 <= j < |ds| && i != j && ds[i].hash !in t.assets ==>
      p.clean(ds[i].fileName) != p.clean(ds[j].fileName)
  }

  lemma {:induction false} NamedNone(p: Paths, name: string, ds: seq<Descriptor>)
    requires forall i :: 0 <= i < |ds| ==> p.clean(ds[i].fileName) != name
    ensures Named(p, name, ds) == []
  {
    if ds == [] {
    } else {
      NamedNone(p, name, ds[..|ds| - 1]);
    }
  }

  lemma {:induction false} NamedOnce(p: Paths, ds: seq<Descriptor>, k: nat)
    requires k < |ds|
    requires forall i :: 0 <= i < |ds| && i != k ==> p.clean(ds[i].fileName) != p.clean(ds[k].fileName)
    ensures Named(p, p.clean(ds[k].fileName), ds) == [ds[k]]
  {
    var n := |ds| - 1;
    if k == n {
      NamedNone(p, p.clean(ds[k].fileName), ds[..n]);
    } else {
      NamedOnce(p, ds[..n], k);
    }
  }

  lemma {:induction false} NamedCount(p: Paths, name: string, ds: seq<Descriptor>, i: nat)
    requires i < |ds| && p.clean(ds[i].fileName) == name
    ensures |Named(p, name, ds)| >= 1
    ensures forall j :: i < j < |ds| && p.clean(ds[j].fileName) == name ==> |Named(p, name, ds)| >= 2
  {
    var n := |ds| - 1;
    if i < n {
      NamedCount(p, name, ds[..n], i);
    }
  }

  lemma RequestedSnoc(p: Paths, rows: seq<AssetLink>, row: AssetLink, ds: seq<Descriptor>)
    ensures Requested(p, rows + [row], ds) == Requested(p, rows, ds) + Named(p, row.fileName, ds)
  {
    assert (rows + [row])[..|rows|] == rows;
  }

  lemma LinksSnoc(p: Paths, rev: nat, es: seq<Descriptor>, e: Descriptor)
    ensures LinksOf(p, rev, es + [e]) == LinksOf(p, rev, es) + [LinkOf(p, rev, e)]
  {
  }

  lemma {:induction false} RequestedExact(p: Paths, rev: nat, es: seq<Descriptor>, ds: seq<Descriptor>)
    requires forall k :: 0 <= k < |es| ==> Named(p, p.clean(es[k].fileName), ds) == [es[k]]
    ensures Requested(p, LinksOf(p, rev, es), ds) == es
  {
    if es == [] {
    } else {
      var before, e := es[..|es| - 1], es[|es| - 1];
      assert es == before + [e];
      RequestedExact(p, rev, before, ds);
      LinksSnoc(p, rev, before, e);
      RequestedSnoc(p, LinksOf(p, rev, before), LinkOf(p, rev, e), ds);
    }
  }

  lemma {:induction false} RequestedTooLong(p: Paths, rows: seq<AssetLink>, ds: seq<Descriptor>)
    requires forall k :: 0 <= k < |rows| ==> |Named(p, rows[k].fileName, ds)| >= 1
    ensures |Requested(p, rows, ds)| >= |rows|
    ensures (exists k :: 0 <= k < |rows| && |Named(p, rows[k].fileName, ds)| >= 2) ==>
      |Requested(p, rows, ds)| > |rows|
  {
    if rows == [] {
    } else {
      RequestedTooLong(p, rows[..|rows| - 1], ds);
    }
  }

  /** Every absent asset is one of the request's, found at some index. */
  lemma AbsentAt(t: Tables, ds: seq<Descriptor>, k: nat) returns (i: nat)
    requires k < |Absent(t, ds)|
    ensures i < |ds| && ds[i] == Absent(t, ds)[k] && ds[i].hash !in t.assets
  {
    AbsentIff(t, ds, Absent(t, ds)[k]);
    i :| 0 <= i < |ds| && ds[i] == Absent(t, ds)[k];
  }

  lemma UniqueGivesExact(p: Paths, t: Tables, rev: nat, ds: seq<Descriptor>)
    requires AbsentNamesUnique(p, t, ds)
    ensures Requested(p, LinksOf(p, rev, Absent(t, ds)), ds) == Absent(t, ds)
  {
    var es := Absent(t, ds);
    forall k | 0 <= k < |es| ensures Named(p, p.clean(es[k].fileName), ds) == [es[k]] {
      var i := AbsentAt(t, ds, k);
      NamedOnce(p, ds, i);
    }
    RequestedExact(p, rev, es, ds);
  }

  lemma SharedGivesMore(p: Paths, t: Tables, rev: nat, ds: seq<Descriptor>, i: nat, j: nat)
    requires i < |ds| && j < |ds| && i != j && ds[i].hash !in t.assets
    requires p.clean(ds[i].fileName) == p.clean(ds[j].fileName)
    ensures |Requested(p, LinksOf(p, rev, Absent(t, ds)), ds)| > |Absent(t, ds)|
  {
    var es := Absent(t, ds);
    var rows := LinksOf(p, rev, es);
    forall k | 0 <= k < |rows| ensures |Named(p, rows[k].fileName, ds)| >= 1 {
      var h := AbsentAt(t, ds, k);
      NamedCount(p, rows[k].fileName, ds, h);
    }
    AbsentIff(t, ds, ds[i]);
    var k :| 0 <= k < |es| && es[k] == ds[i];
    NamedCount(p, rows[k].fileName, ds, if i < j then i else j);
    RequestedTooLong(p, rows, ds);
  }

  /**
   The list is the absent assets, each once and in order, exactly when no absent asset shares
   its cleaned name with another entry of the request.
   */
  lemma MissingListExactIff(p: Paths, t: Tables, uid: User, req: SeedRequest, id: string)
    requires Valid(t) && Seed(p, t, uid, req, id).1.Seeded?
    ensures Seed(p, t, uid, req, id).1.missing == Absent(t, req.assets) <==> AbsentNamesUnique(p, t, req.assets)
  {
    var ds := req.assets;
    MissingOfSeed(p, t, uid, req, id);
    if AbsentNamesUnique(p, t, ds) {
      UniqueGivesExact(p, t, |t.revisions|, ds);
    } else {
      var i, j :| 0 <= i < |ds| && 0 <= j < |ds| && i != j && ds[i].hash !in t.assets
        && p.clean(ds[i].fileName) == p.clean(ds[j].fileName);
      SharedGivesMore(p, t, |t.revisions|, ds, i, j);
    }
  }

  // ---------- the order of the rows ----------

  lemma JoinedThrice(xs: seq<AssetLink>, ys: seq<AssetLink>, y: AssetLink)
    ensures xs + (ys + [y]) == xs + ys + [y]
  {
  }

  lemma {:induction false} RequestedJoin(p: Paths, rows: seq<AssetLink>, more: seq<AssetLink>, ds: seq<Descriptor>)
    ensures Requested(p, rows + more, ds) == Requested(p, rows, ds) + Requested(p, more, ds)
  {
    if more == [] {
      assert rows + more == rows;
    } else {
      var before, row := more[..|more| - 1], more[|more| - 1];
      assert more == before + [row];
      RequestedJoin(p, rows, before, ds);
      JoinedThrice(rows, before, row);
      RequestedSnoc(p, rows + before, row, ds);
      RequestedSnoc(p, before, row, ds);
    }
  }

  lemma RequestedWithout(p: Paths, before: seq<AssetLink>, row: AssetLink, after: seq<AssetLink>, ds: seq<Descriptor>)
    ensures multiset(Requested(p, before + [row] + after, ds))
      == multiset(Requested(p, before + after, ds)) + multiset(Named(p, row.fileName, ds))
  {
    RequestedJoin(p, before + [row], after, ds);
    RequestedSnoc(p, before, row, ds);
    RequestedJoin(p, before, after, ds);
  }

  /** A row can be taken out of both. */
  lemma TakeOut(rows: seq<AssetLink>, row: AssetLink, rows': seq<AssetLink>)
    returns (before: seq<AssetLink>, after: seq<AssetLink>)
    requires multiset(rows + [row]) == multiset(rows')
    ensures rows' == before + [row] + after && multiset(rows) == multiset(before + after)
  {
    assert row in multiset(rows');
    var k :| 0 <= k < |rows'| && rows'[k] == row;
    before, after := rows'[..k], rows'[k + 1..];
    assert rows' == before + [row] + after;
    assert multiset(rows) + multiset{row} == (multiset(before) + multiset(after)) + multiset{row};
    Cancel(multiset(rows), multiset(before) + multiset(after), row);
  }

  lemma Cancel(a: multiset<AssetLink>, b: multiset<AssetLink>, row: AssetLink)
    requires a + multiset{row} == b + multiset{row}
    ensures a == b
  {
    assert a == (a + multiset{row}) - multiset{row} && b == (b + multiset{row}) - multiset{row};
  }

  /** The query promises no order: whichever it takes, the same assets are asked for equally often. */
  lemma {:induction false} AnyOrderAsksTheSame(p: Paths, rows: seq<AssetLink>, rows': seq<AssetLink>, ds: seq<Descriptor>)
    requires multiset(rows) == multiset(rows')
    ensures multiset(Requested(p, rows, ds)) == multiset(Requested(p, rows', ds))
    decreases |rows|
  {
    if rows == [] {
      assert |rows'| == |multiset(rows')| == 0;
    } else {
      var most, row := rows[..|rows| - 1], rows[|rows| - 1];
      assert rows == most + [row];
      var before, after := TakeOut(most, row, rows');
      AnyOrderAsksTheSame(p, most, before + after, ds);
      RequestedSnoc(p, most, row, ds);
      RequestedWithout(p, before, row, after, ds);
    }
  }

  /** So in any order of the rows it is the absent assets, each once, exactly under the same condition. */
  lemma AnyOrderExactIff(p: Paths, t: Tables, uid: User, req: SeedRequest, id: string, rows: seq<AssetLink>)
    requires Valid(t) && Seed(p, t, uid, req, id).1.Seeded?
    requires multiset(rows) == multiset(MissingLinks(Seed(p, t, uid, req, id).0, |t.revisions|))
    ensures multiset(Requested(p, rows, req.assets)) == multiset(Absent(t, req.assets))
      <==> AbsentNamesUnique(p, t, req.assets)
  {
    SeedShape(p, t, uid, req, id);
    AnyOrderAsksTheSame(p, rows, MissingLinks(Seed(p, t, uid, req, id).0, |t.revisions|), req.assets);
    MissingListExactIff(p, t, uid, req, id);
    if !AbsentNamesUnique(p, t, req.assets) { SharedMeansLonger(p, t, uid, req, id); }
  }

  lemma SharedMeansLonger(p: Paths, t: Tables, uid: User, req: SeedRequest, id: string)
    requires Valid(t) && Seed(p, t, uid, req, id).1.Seeded? && !AbsentNamesUnique(p, t, req.assets)
    ensures multiset(Seed(p, t, uid, req, id).1.missing) != multiset(Absent(t, req.assets))
  {
    var ds := req.assets;
    var i, j :| 0 <= i < |ds| && 0 <= j < |ds| && i != j && ds[i].hash !in t.assets
      && p.clean(ds[i].fileName) == p.clean(ds[j].fileName);
    MissingOfSeed(p, t, uid, req, id);
    SharedGivesMore(p, t, |t.revisions|, ds, i, j);
    assert |multiset(Seed(p, t, uid, req, id).1.missing)| > |multiset(Absent(t, ds))|;
  }
}
