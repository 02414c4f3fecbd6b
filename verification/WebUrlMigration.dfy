/** The whole of z32's upgrade: two tables with unique keys and the addresses of the news sources, in
    one transaction. */
module WebUrlMigration {
  import opened Prelude
  import opened KeyTable

  /** What the upgrade demands of the stored values. Endpoints must be normalized already. */
  ghost predicate Passes(incomplete: Rows, analyzable: Rows, endpoints: Rows, sites: Rows, article: Rule, web: Rule) {
    && !Refuses(incomplete, article) && !Refuses(analyzable, article)
    && (forall i <- endpoints :: web(endpoints[i]) == Some(endpoints[i]))
    && Normalizable(sites, web)
  }

  function AllNormalized(sites: Rows, web: Rule): Rows
    requires Normalizable(sites, web)
  {
    map i <- sites :: web(sites[i]).value
  }

  class Database {
    const incomplete: Table
    const analyzable: Table
    const endpoints: Rows
    var sites: Rows

    constructor (incomplete: Table, analyzable: Table, endpoints: Rows, sites: Rows)
      ensures this.incomplete == incomplete && this.analyzable == analyzable
      ensures this.endpoints == endpoints && this.sites == sites
    {
      this.incomplete, this.analyzable, this.endpoints, this.sites := incomplete, analyzable, endpoints, sites;
    }

    ghost predicate Valid()
      reads this, incomplete, analyzable
    {
      incomplete != analyzable && Unique(incomplete.rows) && Unique(analyzable.rows)
    }

    /** site_url is not a key, so no update of it is refused. */
    method RewriteSites(ids: seq<int>, changes: map<int, string>, web: Rule)
      requires Normalizable(sites, web) && (forall i :: i in ids <==> Changes(sites, web, i))
      requires changes.Keys == (set i <- ids) && forall i <- changes :: i in sites && Some(changes[i]) == web(sites[i])
      modifies this`sites
      ensures sites == AllNormalized(old(sites), web)
    {
      ghost var was := sites;
      for n := 0 to |ids|
        invariant sites.Keys == was.Keys
        invariant forall i <- was :: sites[i] == if i in ids[..n] then web(was[i]).value else was[i]
      {
        assert ids[..n + 1] == ids[..n] + [ids[n]];
        assert Changes(was, web, ids[n]);
        sites := sites[ids[n] := changes[ids[n]]];
      }
      assert ids[..|ids|] == ids;
      forall i | i in was
        ensures sites[i] == AllNormalized(was, web)[i]
      {
        assert i !in ids ==> !Changes(was, web, i);
      }
      assert sites == AllNormalized(was, web);
    }

    /** The part about news_sources. */
    method NormalizeSources(order: seq<int>, siteOrder: seq<int>, web: Rule) returns (ok: bool)
      requires Enumerates(order, endpoints) && Enumerates(siteOrder, sites)
      modifies this`sites
      ensures ok <==>
        (forall i <- endpoints :: web(endpoints[i]) == Some(endpoints[i])) && Normalizable(old(sites), web)
      ensures ok ==> sites == AllNormalized(old(sites), web)
      ensures !ok ==> sites == old(sites)
    {
      var bad, ids, changes := FindChanges(endpoints, order, web);
      if bad.Some? {
        return false;
      }
      if ids != [] {
        assert Changes(endpoints, web, ids[0]);
        return false;
      }
      assert forall i <- endpoints :: !Changes(endpoints, web, i);
      bad, ids, changes := FindChanges(sites, siteOrder, web);
      if bad.Some? {
        return false;
      }
      RewriteSites(ids, changes, web);
      return true;
    }

    /** Either every value passes and all of them are normalized, or nothing has changed. */
    method Upgrade(incompleteOrder: seq<int>, analyzableOrder: seq<int>, sourceOrder: seq<int>, siteOrder: seq<int>,
                   article: Rule, web: Rule) returns (ok: bool)
      requires Valid()
      requires Enumerates(incompleteOrder, incomplete.rows) && Enumerates(analyzableOrder, analyzable.rows)
      requires Enumerates(sourceOrder, endpoints) && Enumerates(siteOrder, sites)
      modifies this, incomplete, analyzable
      ensures Valid()
      ensures ok <==> Passes(old(incomplete.rows), old(analyzable.rows), endpoints, old(sites), article, web)
      ensures ok ==> incomplete.rows == Normalized(old(incomplete.rows), article, true)
      ensures ok ==> analyzable.rows == Normalized(old(analyzable.rows), article, false)
      ensures ok ==> sites == AllNormalized(old(sites), web)
      ensures !ok ==>
        incomplete.rows == old(incomplete.rows) && analyzable.rows == old(analyzable.rows) && sites == old(sites)
    {
      var incompleteBefore, analyzableBefore := incomplete.rows, analyzable.rows;
      ok := NormalizeTables(incompleteOrder, analyzableOrder, article);
      if ok {
        ok := NormalizeSources(sourceOrder, siteOrder, web);
      }
      if !ok {
        incomplete.rows, analyzable.rows := incompleteBefore, analyzableBefore;
      }
    }

    /** Superseded rows are deleted from the one table and kept in the other. */
    method NormalizeTables(incompleteOrder: seq<int>, analyzableOrder: seq<int>, article: Rule) returns (ok: bool)
      requires Valid()
      requires Enumerates(incompleteOrder, incomplete.rows) && Enumerates(analyzableOrder, analyzable.rows)
      modifies incomplete, analyzable
      ensures Valid()
      ensures ok <==> !Refuses(old(incomplete.rows), article) && !Refuses(old(analyzable.rows), article)
      ensures ok ==> incomplete.rows == Normalized(old(incomplete.rows), article, true)
      ensures ok ==> analyzable.rows == Normalized(old(analyzable.rows), article, false)
    {
      var first := NormalizeKeys(incomplete, incompleteOrder, article, true);
      if !first.Done? {
        return false;
      }
      var second := NormalizeKeys(analyzable, analyzableOrder, article, false);
      return second.Done?;
    }
  }

  /** Once it has gone through, it goes through again and changes nothing. */
  lemma UpgradeTwice(incomplete: Rows, analyzable: Rows, endpoints: Rows, sites: Rows, article: Rule, web: Rule)
    requires Unique(incomplete) && Unique(analyzable) && Idempotent(article) && Idempotent(web)
    requires Passes(incomplete, analyzable, endpoints, sites, article, web)
    ensures var i2, a2 := Normalized(incomplete, article, true), Normalized(analyzable, article, false);
            var s2 := AllNormalized(sites, web);
            && Passes(i2, a2, endpoints, s2, article, web)
            && Normalized(i2, article, true) == i2 && Normalized(a2, article, false) == a2
            && AllNormalized(s2, web) == s2
  {
    SecondRunIsIdle(incomplete, article, true);
    SecondRunIsIdle(analyzable, article, false);
    var s2 := AllNormalized(sites, web);
    assert forall i <- s2 :: web(s2[i]) == Some(s2[i]);
  }
}
