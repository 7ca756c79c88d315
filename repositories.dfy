/** JobOfferRepository and JobApplicationRepository: the data-access layer.
    Both work on one shared AppDbContext. A `fault` argument stands for an
    exception raised by the database during the call (connection lost,
    constraint violated, ...); the repositories log it and rethrow, so a
    fault always surfaces as `Thrown(StoreFailure)` and SaveChanges, which
    is atomic, leaves the tables as they were. */
module Repositories {

  import opened Envelopes
  import opened Models
  import Data

  /** The key under which an inserted row is stored: an Id left at 0 asks the
      database to generate one (SQLite AUTOINCREMENT hands out the counter),
      any other Id is inserted as given. */
  function StoredKey(id: int, counter: int): int {
    if id == 0 then counter else id
  }

  /** The AUTOINCREMENT counter after a row with key `key` is inserted. */
  function CounterAfter(key: int, counter: int): (c: int)
    ensures c >= counter && c > key
  {
    if key < counter then counter else key + 1
  }

  /** GetJobOfferWithApplicationsByIdAsync: the offer with its JobApplications
      collection loaded by Include. */
  datatype OfferWithApplications = OfferWithApplications(offer: JobOffer, applications: set<JobApplication>)

  class JobOfferRepository {
    const context: Data.AppDbContext

    constructor (context: Data.AppDbContext)
      ensures this.context == context
    {
      this.context := context;
    }

    /** GetAllJobOffersAsync: every stored offer, one per row. */
    function GetAllJobOffers(fault: bool): (r: Outcome<set<JobOffer>>)
      requires context.Valid()
      reads context
      ensures r.Thrown? <==> fault
      ensures r.Thrown? ==> r.error == StoreFailure
      ensures r.Returned? ==>
        forall o :: o in r.value <==> o.id in context.jobOffers && context.jobOffers[o.id] == o
      ensures r.Returned? ==> |r.value| == |context.jobOffers|
    {
      if fault then Thrown(StoreFailure)
      else
        Data.KeyedOffersCount(context.jobOffers);
        Returned(context.jobOffers.Values)
    }

    /** GetJobOfferByIdAsync: FirstOrDefault(j => j.Id == id); a missing offer
        is a null result, not an exception. */
    function GetJobOfferById(id: int, fault: bool): (r: Outcome<Option<JobOffer>>)
      requires context.Valid()
      reads context
      ensures r.Thrown? <==> fault
      ensures r.Thrown? ==> r.error == StoreFailure
      ensures r.Returned? ==> (r.value.Some? <==> exists o :: o in context.jobOffers.Values && o.id == id)
      ensures r.Returned? && r.value.Some? ==> r.value.value.id == id && r.value.value in context.jobOffers.Values
    {
      if fault then Thrown(StoreFailure)
      else if id in context.jobOffers then Returned(Some(context.jobOffers[id]))
      else
        Data.KeyedOffersCount(context.jobOffers);
        Returned(None)
    }

    /** GetJobOfferWithApplicationsByIdAsync: the same offer as GetJobOfferById,
        together with exactly the applications whose JobOfferId is its id. */
    function GetJobOfferWithApplicationsById(id: int, fault: bool): (r: Outcome<Option<OfferWithApplications>>)
      requires context.Valid()
      reads context
      ensures r.Thrown? <==> fault
      ensures r.Thrown? ==> r.error == StoreFailure
      ensures r.Returned? ==> (r.value.Some? <==> GetJobOfferById(id, false).value.Some?)
      ensures r.Returned? && r.value.Some? ==>
        && Some(r.value.value.offer) == GetJobOfferById(id, false).value
        && (forall a :: a in r.value.value.applications <==>
              a in context.jobApplications.Values && a.jobOfferId == id)
    {
      if fault then Thrown(StoreFailure)
      else if id in context.jobOffers then
        Returned(Some(OfferWithApplications(context.jobOffers[id], Data.ApplicationsOf(context.jobApplications, id))))
      else Returned(None)
    }

    /** AddJobOfferAsync: inserts one offer and writes the generated Id back
        into it (returned here as the stored row). */
    method AddJobOffer(offer: JobOffer, fault: bool) returns (r: Outcome<JobOffer>)
      requires context.Valid()
      modifies context
      ensures context.Valid()
      ensures r.Returned? <==> !fault && (offer.id == 0 || offer.id !in old(context.jobOffers))
      ensures r.Thrown? ==> r.error == StoreFailure && unchanged(context)
      ensures r.Returned? ==>
        var stored := r.value;
        && stored == offer.(id := StoredKey(offer.id, old(context.nextOfferId)))
        && stored.id !in old(context.jobOffers)
        && stored.title == offer.title
        && context.jobOffers == old(context.jobOffers)[stored.id := stored]
        && context.nextOfferId == CounterAfter(stored.id, old(context.nextOfferId))
        && context.jobApplications == old(context.jobApplications)
        && context.nextApplicationId == old(context.nextApplicationId)
        && GetJobOfferById(stored.id, false) == Returned(Some(stored))
      ensures old(context.NoOrphanedApplications()) ==> context.NoOrphanedApplications()
    {
      if fault {
        return Thrown(StoreFailure);
      }
      if offer.id != 0 && offer.id in context.jobOffers {
        return Thrown(StoreFailure);
      }
      var stored := offer.(id := StoredKey(offer.id, context.nextOfferId));
      context.jobOffers := context.jobOffers[stored.id := stored];
      context.nextOfferId := CounterAfter(stored.id, context.nextOfferId);
      r := Returned(stored);
    }

    /** UpdateJobOfferAsync: looks the stored offer up by `offer.id`, throws when
        there is none, and otherwise copies Title, Description, Location, Salary
        and ContractType onto it, one field at a time. */
    method UpdateJobOffer(offer: JobOffer, fault: bool) returns (r: Outcome<()>)
      requires context.Valid()
      modifies context
      ensures context.Valid()
      ensures fault ==> r == Thrown(StoreFailure)
      ensures !fault && offer.id !in old(context.jobOffers) ==> r == Thrown(OfferNotFound(offer.id))
      ensures r.Thrown? ==> unchanged(context)
      ensures r.Returned? <==> !fault && offer.id in old(context.jobOffers)
      ensures r.Returned? ==>
        && context.jobOffers.Keys == old(context.jobOffers).Keys
        && (forall k :: k in context.jobOffers && k != offer.id ==> context.jobOffers[k] == old(context.jobOffers)[k])
        && context.jobApplications == old(context.jobApplications)
        && context.nextOfferId == old(context.nextOfferId)
        && context.nextApplicationId == old(context.nextApplicationId)
      ensures r.Returned? ==>
        var updated := context.jobOffers[offer.id];
        && updated.title == offer.title
        && updated.description == offer.description
        && updated.location == offer.location
        && updated.salary == offer.salary
        && updated.contractType == offer.contractType
        && updated.id == offer.id
        && updated.datePosted == old(context.jobOffers)[offer.id].datePosted
      ensures old(context.NoOrphanedApplications()) ==> context.NoOrphanedApplications()
    {
      if fault {
        return Thrown(StoreFailure);
      }
      if offer.id !in context.jobOffers {
        return Thrown(OfferNotFound(offer.id));
      }
      var existing := context.jobOffers[offer.id];
      existing := existing.(title := offer.title);
      existing := existing.(description := offer.description);
      existing := existing.(location := offer.location);
      existing := existing.(salary := offer.salary);
      existing := existing.(contractType := offer.contractType);
      context.jobOffers := context.jobOffers[offer.id := existing];
      r := Returned(());
    }

    /** DeleteJobOfferAsync: removes the offer if it exists (its applications go
        with it, by the cascade rule); a missing id is a no-op. */
    method DeleteJobOffer(id: int, fault: bool) returns (r: Outcome<()>)
      requires context.Valid()
      modifies context
      ensures context.Valid()
      ensures r.Thrown? <==> fault
      ensures r.Thrown? ==> r.error == StoreFailure && unchanged(context)
      ensures !fault && id !in old(context.jobOffers) ==> unchanged(context)
      ensures !fault && id in old(context.jobOffers) ==>
        && context.jobOffers == old(context.jobOffers) - {id}
        && context.jobApplications == Data.CascadeDelete(old(context.jobApplications), id)
        && context.nextOfferId == old(context.nextOfferId)
        && context.nextApplicationId == old(context.nextApplicationId)
        && Data.ApplicationsOf(context.jobApplications, id) == {}
        && (forall k :: k in context.jobApplications <==>
              k in old(context.jobApplications) && old(context.jobApplications)[k].jobOfferId != id)
      ensures r.Returned? ==> GetJobOfferById(id, false) == Returned(None)
      ensures old(context.NoOrphanedApplications()) ==> context.NoOrphanedApplications()
    {
      if fault {
        return Thrown(StoreFailure);
      }
      Data.CascadeRemovesExactlyDependants(context.jobApplications, id);
      if id in context.jobOffers {
        if context.NoOrphanedApplications() {
          Data.CascadeKeepsNoOrphans(context.jobOffers, context.jobApplications, id);
        }
        context.jobOffers := context.jobOffers - {id};
        context.jobApplications := Data.CascadeDelete(context.jobApplications, id);
      }
      r := Returned(());
    }
  }

  class JobApplicationRepository {
    const context: Data.AppDbContext

    constructor (context: Data.AppDbContext)
      ensures this.context == context
    {
      this.context := context;
    }

    /** AddJobApplicationAsync: inserts one application and writes the generated
        Id back into it. The database enforces the foreign key (the SQLite
        provider switches foreign-key checks on), so SaveChanges fails, and the
        repository rethrows, when JobOfferId names no stored offer. */
    method AddJobApplication(application: JobApplication, fault: bool) returns (r: Outcome<JobApplication>)
      requires context.Valid()
      modifies context
      ensures context.Valid()
      ensures r.Returned? <==>
        && !fault
        && (application.id == 0 || application.id !in old(context.jobApplications))
        && application.jobOfferId in old(context.jobOffers)
      ensures application.jobOfferId !in old(context.jobOffers) ==> r == Thrown(StoreFailure) && unchanged(context)
      ensures r.Thrown? ==> r.error == StoreFailure && unchanged(context)
      ensures r.Returned? ==>
        var stored := r.value;
        && stored == application.(id := StoredKey(application.id, old(context.nextApplicationId)))
        && stored.id !in old(context.jobApplications)
        && stored.candidateName == application.candidateName
        && context.jobApplications == old(context.jobApplications)[stored.id := stored]
        && context.nextApplicationId == CounterAfter(stored.id, old(context.nextApplicationId))
        && context.jobOffers == old(context.jobOffers)
        && context.nextOfferId == old(context.nextOfferId)
        && GetJobApplicationById(stored.id, false) == Returned(Some(stored))
      ensures old(context.NoOrphanedApplications()) ==> context.NoOrphanedApplications()
    {
      if fault {
        return Thrown(StoreFailure);
      }
      if application.id != 0 && application.id in context.jobApplications {
        return Thrown(StoreFailure);
      }
      if application.jobOfferId !in context.jobOffers {
        return Thrown(StoreFailure);
      }
      var stored := application.(id := StoredKey(application.id, context.nextApplicationId));
      context.jobApplications := context.jobApplications[stored.id := stored];
      context.nextApplicationId := CounterAfter(stored.id, context.nextApplicationId);
      r := Returned(stored);
    }

    /** DeleteJobApplicationAsync: removes that one application if it exists;
        a missing id is a no-op. Offers are never touched. */
    method DeleteJobApplication(id: int, fault: bool) returns (r: Outcome<()>)
      requires context.Valid()
      modifies context
      ensures context.Valid()
      ensures r.Thrown? <==> fault
      ensures r.Thrown? ==> r.error == StoreFailure && unchanged(context)
      ensures !fault && id !in old(context.jobApplications) ==> unchanged(context)
      ensures !fault && id in old(context.jobApplications) ==>
        && context.jobApplications == old(context.jobApplications) - {id}
        && context.jobOffers == old(context.jobOffers)
        && context.nextOfferId == old(context.nextOfferId)
        && context.nextApplicationId == old(context.nextApplicationId)
      ensures r.Returned? ==> GetJobApplicationById(id, false) == Returned(None)
      ensures old(context.NoOrphanedApplications()) ==> context.NoOrphanedApplications()
    {
      if fault {
        return Thrown(StoreFailure);
      }
      if id in context.jobApplications {
        context.jobApplications := context.jobApplications - {id};
      }
      r := Returned(());
    }

    /** GetAllJobApplicationsAsync: every stored application, one per row. */
    function GetAllJobApplications(fault: bool): (r: Outcome<set<JobApplication>>)
      requires context.Valid()
      reads context
      ensures r.Thrown? <==> fault
      ensures r.Thrown? ==> r.error == StoreFailure
      ensures r.Returned? ==>
        forall a :: a in r.value <==> a.id in context.jobApplications && context.jobApplications[a.id] == a
      ensures r.Returned? ==> |r.value| == |context.jobApplications|
    {
      if fault then Thrown(StoreFailure)
      else
        Data.KeyedApplicationsCount(context.jobApplications);
        Returned(context.jobApplications.Values)
    }

    /** GetJobApplicationByIdAsync: FindAsync(id); null when absent. */
    function GetJobApplicationById(id: int, fault: bool): (r: Outcome<Option<JobApplication>>)
      requires context.Valid()
      reads context
      ensures r.Thrown? <==> fault
      ensures r.Thrown? ==> r.error == StoreFailure
      ensures r.Returned? ==> (r.value.Some? <==> exists a :: a in context.jobApplications.Values && a.id == id)
      ensures r.Returned? && r.value.Some? ==> r.value.value.id == id && r.value.value in context.jobApplications.Values
    {
      if fault then Thrown(StoreFailure)
      else if id in context.jobApplications then Returned(Some(context.jobApplications[id]))
      else
        Data.KeyedApplicationsCount(context.jobApplications);
        Returned(None)
    }
  }
}
