/** AppDbContext: the two tables and the relationship OnModelCreating
    configures between them. A JobOffer has many JobApplications, each
    application points at its offer through the foreign key JobOfferId, and
    deleting an offer deletes the applications that point at it. */
module Data {

  import opened Models
  import Collections

  /** Every row sits under its own primary key. */
  ghost predicate OffersKeyed(offers: map<int, JobOffer>) {
    forall k :: k in offers ==> offers[k].id == k
  }

  ghost predicate ApplicationsKeyed(apps: map<int, JobApplication>) {
    forall k :: k in apps ==> apps[k].id == k
  }

  /** The navigation collection JobOffer.JobApplications: the applications whose
      foreign key is the offer's id (HasMany / WithOne / HasForeignKey). */
  function ApplicationsOf(apps: map<int, JobApplication>, offerId: int): set<JobApplication> {
    set a | a in apps.Values && a.jobOfferId == offerId
  }

  /** OnDelete(DeleteBehavior.Cascade): what is left of the applications table
      once the offer `offerId` is deleted. */
  function CascadeDelete(apps: map<int, JobApplication>, offerId: int): map<int, JobApplication> {
    map k | k in apps && apps[k].jobOfferId != offerId :: apps[k]
  }

  /** The store invariant: no application references a missing offer. */
  predicate NoOrphans(offers: map<int, JobOffer>, apps: map<int, JobApplication>) {
    forall k :: k in apps ==> apps[k].jobOfferId in offers
  }

  /** The cascade removes exactly the dependants of the deleted offer and
      leaves every other application as it was. */
  lemma CascadeRemovesExactlyDependants(apps: map<int, JobApplication>, offerId: int)
    ensures forall k :: k in CascadeDelete(apps, offerId) <==> k in apps && apps[k].jobOfferId != offerId
    ensures forall k :: k in CascadeDelete(apps, offerId) ==> CascadeDelete(apps, offerId)[k] == apps[k]
    ensures ApplicationsOf(CascadeDelete(apps, offerId), offerId) == {}
    ensures forall other :: other != offerId ==>
      ApplicationsOf(CascadeDelete(apps, offerId), other) == ApplicationsOf(apps, other)
  {
    var r := CascadeDelete(apps, offerId);
    forall other | other != offerId
      ensures ApplicationsOf(r, other) == ApplicationsOf(apps, other)
    {
      forall a | a in ApplicationsOf(apps, other) ensures a in ApplicationsOf(r, other) {
        var k := Collections.KeyOf(apps, a);
        assert r[k] == a;
      }
    }
  }

  /** Deleting an offer with N applications removes exactly N rows. */
  lemma {:induction false} CascadeRemovesAsManyAsDependants(apps: map<int, JobApplication>, offerId: int)
    requires ApplicationsKeyed(apps)
    ensures |CascadeDelete(apps, offerId)| + |ApplicationsOf(apps, offerId)| == |apps|
  {
    if apps != map[] {
      var k := Collections.PickKey(apps);
      var rest := apps - {k};
      CascadeRemovesAsManyAsDependants(rest, offerId);
      var a := apps[k];
      assert apps.Keys == rest.Keys + {k};
      assert a !in rest.Values by {
        if a in rest.Values {
          var k' := Collections.KeyOf(rest, a);
        }
      }
      if a.jobOfferId == offerId {
        assert CascadeDelete(apps, offerId) == CascadeDelete(rest, offerId);
        assert ApplicationsOf(apps, offerId) == ApplicationsOf(rest, offerId) + {a};
      } else {
        assert CascadeDelete(apps, offerId).Keys == CascadeDelete(rest, offerId).Keys + {k};
        assert ApplicationsOf(apps, offerId) == ApplicationsOf(rest, offerId);
      }
    }
  }

  /** After the cascade no application references the deleted offer, so the
      invariant survives the deletion of the offer. */
  lemma CascadeKeepsNoOrphans(offers: map<int, JobOffer>, apps: map<int, JobApplication>, offerId: int)
    requires NoOrphans(offers, apps)
    ensures NoOrphans(offers - {offerId}, CascadeDelete(apps, offerId))
  {
  }

  /** Deleting an offer WITHOUT the cascade orphans its applications. */
  lemma DeleteWithoutCascadeOrphans(offers: map<int, JobOffer>, apps: map<int, JobApplication>, offerId: int)
    requires ApplicationsOf(apps, offerId) != {}
    ensures !NoOrphans(offers - {offerId}, apps)
  {
    var a :| a in ApplicationsOf(apps, offerId);
    var k := Collections.KeyOf(apps, a);
  }

  /** Inserting an application keeps the invariant exactly when the offer it
      references exists, which is why an insert must be preceded by a lookup. */
  lemma InsertKeepsNoOrphansIffOfferExists(offers: map<int, JobOffer>, apps: map<int, JobApplication>,
                                           k: int, a: JobApplication)
    requires NoOrphans(offers, apps)
    ensures NoOrphans(offers, apps[k := a]) <==> a.jobOfferId in offers
  {
    if NoOrphans(offers, apps[k := a]) {
      assert apps[k := a][k] == a;
    }
  }

  /** A keyed table has one stored row per key, and a row is stored exactly
      under its own id. */
  lemma KeyedOffersCount(offers: map<int, JobOffer>)
    requires OffersKeyed(offers)
    ensures |offers.Values| == |offers|
    ensures forall o :: o in offers.Values <==> o.id in offers && offers[o.id] == o
    ensures forall o, o' :: o in offers.Values && o' in offers.Values && o.id == o'.id ==> o == o'
  {
    forall k, k' | k in offers && k' in offers && offers[k] == offers[k'] ensures k == k' {
      assert offers[k].id == k && offers[k'].id == k';
    }
    Collections.DistinctValuesCardinality(offers);
    forall o | o in offers.Values ensures o.id in offers && offers[o.id] == o {
      var k := Collections.KeyOf(offers, o);
    }
    forall o, o' | o in offers.Values && o' in offers.Values && o.id == o'.id ensures o == o' {
      var k := Collections.KeyOf(offers, o);
      var k' := Collections.KeyOf(offers, o');
    }
  }

  lemma KeyedApplicationsCount(apps: map<int, JobApplication>)
    requires ApplicationsKeyed(apps)
    ensures |apps.Values| == |apps|
    ensures forall a :: a in apps.Values <==> a.id in apps && apps[a.id] == a
    ensures forall a, a' :: a in apps.Values && a' in apps.Values && a.id == a'.id ==> a == a'
  {
    forall k, k' | k in apps && k' in apps && apps[k] == apps[k'] ensures k == k' {
      assert apps[k].id == k && apps[k'].id == k';
    }
    Collections.DistinctValuesCardinality(apps);
    forall a | a in apps.Values ensures a.id in apps && apps[a.id] == a {
      var k := Collections.KeyOf(apps, a);
    }
    forall a, a' | a in apps.Values && a' in apps.Values && a.id == a'.id ensures a == a' {
      var k := Collections.KeyOf(apps, a);
      var k' := Collections.KeyOf(apps, a');
    }
  }

  /** The database: the JobOffers and JobApplications tables keyed by Id, and
      the identity counters from which the store draws fresh ids. */
  class AppDbContext {
    var jobOffers: map<int, JobOffer>
    var jobApplications: map<int, JobApplication>
    var nextOfferId: int
    var nextApplicationId: int

    /** Rows sit under their own ids, and every id in use is below its
        table's counter, so the next generated id is fresh. */
    ghost predicate Valid()
      reads this
    {
      && 1 <= nextOfferId && 1 <= nextApplicationId
      && OffersKeyed(jobOffers) && ApplicationsKeyed(jobApplications)
      && (forall k :: k in jobOffers ==> k < nextOfferId)
      && (forall k :: k in jobApplications ==> k < nextApplicationId)
    }

    /** The referential-integrity invariant over the current tables. */
    predicate NoOrphanedApplications()
      reads this
    {
      NoOrphans(jobOffers, jobApplications)
    }

    /** An empty database. */
    constructor ()
      ensures Valid() && NoOrphanedApplications()
      ensures jobOffers == map[] && jobApplications == map[]
    {
      jobOffers, jobApplications := map[], map[];
      nextOfferId, nextApplicationId := 1, 1;
    }
  }
}
