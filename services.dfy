/** JobOfferService and JobApplicationService: every operation answers with a
    GenericResponseDto envelope. Where a catch block returns an envelope
    before its `throw;`, the rethrow is dead code and the operation never
    throws; where the catch block only logs and rethrows, the store failure
    propagates. A service operation that makes two store calls takes one
    fault flag per call. */
module Services {

  import opened Envelopes
  import opened Models
  import opened Dtos
  import opened JobOfferBase
  import Data
  import Repositories

  // Messages of JobOfferService, as the source writes them.
  const NoOffersAvailable := "No hay ofertas de trabajo disponibles en este momento."
  const OffersRetrieved := "Ofertas de trabajo recuperadas exitosamente."
  const OffersRetrievalError := "Ocurrió un error interno al recuperar las ofertas de trabajo."
  const OfferNotFoundMessage := "No se encontró la oferta de trabajo."
  const OfferNotFoundOnUpdate := "No se encontró la oferta de trabajo"
  const OfferRetrieved := "Oferta de trabajo recuperada exitosamente."
  const OfferCreated := "Oferta de trabajo creada exitosamente."
  const OfferUpdated := "Oferta de trabajo actualizada exitosamente."
  const OfferDeleted := "Oferta de trabajo eliminada exitosamente."
  const OfferDeletionError := "Ocurrió un error interno al eliminar la oferta de trabajo."
  const OfferWithIdNotFound := "No se encontró la oferta de trabajo con el ID especificado."
  const NoApplicationsForOffer := "No se encontraron aplicaciones de trabajo para la oferta de trabajo especificada."
  const ApplicationsRetrieved := "Aplicaciones de trabajo recuperadas exitosamente."

  // Messages of JobApplicationService, as the source writes them (typos included).
  const NoApplicationsAvailable := "No hay aplicaicones de trabajo disponibles en este momento."
  const ApplicationNotFound := "No se encontró la aplicación de trabajo."
  const ApplicationRetrieved := "Aplicación de trabajo recuperada exitosamente."
  const OfferToApplyNotFound := "No se encontró la oferta de trabajo para registra las aplicación a dicha oferta."
  const Applied := "Se aplicó a la oferta de trabajo exitosamente."
  const ApplicationAddError := "Ocurrió un error al agregar una nueva aplicación de trabajo"
  const ApplicationDeleted := "Aplicación de trabajo elimianada exitosamente."
  const ApplicationDeletionError := "Ocurrió un error interno al eliminar la aplicación de trabajo."

  /** `new GenericResponseDto<T>()` before its properties are assigned. */
  function NewResponse<T>(): Response<T> {
    Response(false, "", None)
  }

  /** The offer the update body turns `existing` into: the five editable fields
      come from the body, Id and DatePosted stay. */
  predicate IsUpdateOf(updated: JobOffer, existing: JobOffer, dto: JobOfferUpdateDto) {
    && updated.id == existing.id
    && updated.datePosted == existing.datePosted
    && updated.title == dto.title
    && updated.description == dto.description
    && updated.location == dto.location
    && updated.salary == dto.salary
    && updated.contractType == dto.contractType
  }

  /** A DTO lists a stored offer exactly when it is the image of the row under its id. */
  lemma OfferDtosOfTable(offers: map<int, JobOffer>)
    requires Data.OffersKeyed(offers)
    ensures |OfferDtos(offers.Values)| == |offers|
    ensures forall d :: d in OfferDtos(offers.Values) <==> d.id in offers && OfferToDto(offers[d.id]) == d
  {
    Data.KeyedOffersCount(offers);
    OfferDtosCount(offers.Values);
  }

  /** A DTO lists an application of the selection exactly when it is the image of a selected row. */
  lemma ApplicationDtosOfTable(apps: map<int, JobApplication>, selected: set<JobApplication>)
    requires Data.ApplicationsKeyed(apps)
    requires selected <= apps.Values
    ensures |ApplicationDtos(selected)| == |selected|
    ensures forall d :: d in ApplicationDtos(selected) <==>
      d.id in apps && apps[d.id] in selected && ApplicationToDto(apps[d.id]) == d
  {
    Data.KeyedApplicationsCount(apps);
    ApplicationDtosCount(selected);
  }

  class JobOfferService {
    const repository: Repositories.JobOfferRepository

    constructor (repository: Repositories.JobOfferRepository)
      ensures this.repository == repository
    {
      this.repository := repository;
    }

    /** GetAllJobOffersAsync: never throws; a store failure becomes a failure
        envelope without data, otherwise one DTO per stored offer. */
    function GetAllJobOffers(fault: bool): (r: Outcome<Response<set<JobOfferDto>>>)
      requires repository.context.Valid()
      reads repository.context
      ensures r.Returned?
      ensures fault ==> r.value == Response(false, OffersRetrievalError, None)
      ensures !fault ==>
        && r.value.isSuccess && r.value.data.Some?
        && r.value.message == (if repository.context.jobOffers == map[] then NoOffersAvailable else OffersRetrieved)
        && |r.value.data.value| == |repository.context.jobOffers|
        && (forall d :: d in r.value.data.value <==>
              d.id in repository.context.jobOffers && OfferToDto(repository.context.jobOffers[d.id]) == d)
    {
      match repository.GetAllJobOffers(fault)
      case Thrown(_) => Returned(Response(false, OffersRetrievalError, None))
      case Returned(offers) =>
        OfferDtosOfTable(repository.context.jobOffers);
        if offers == {} then Returned(Response(true, NoOffersAvailable, Some({})))
        else Returned(Response(true, OffersRetrieved, Some(OfferDtos(offers))))
    }

    /** GetJobOfferByIdAsync: never throws; a missing offer and a store failure
        both give a failure envelope without data. */
    function GetJobOfferById(id: int, fault: bool): (r: Outcome<Response<JobOfferDto>>)
      requires repository.context.Valid()
      reads repository.context
      ensures r.Returned?
      ensures fault ==> r.value == Response(false, InternalServerError, None)
      ensures !fault && id !in repository.context.jobOffers ==> r.value == Response(false, OfferNotFoundMessage, None)
      ensures !fault && id in repository.context.jobOffers ==>
        && r.value.isSuccess && r.value.message == OfferRetrieved
        && r.value.data == Some(OfferToDto(repository.context.jobOffers[id]))
        && r.value.data.value.id == id
    {
      match repository.GetJobOfferById(id, fault)
      case Thrown(_) => Returned(Response(false, InternalServerError, None))
      case Returned(None) => Returned(Response(false, OfferNotFoundMessage, None))
      case Returned(Some(jobOffer)) => Returned(Response(true, OfferRetrieved, Some(OfferToDto(jobOffer))))
    }

    /** AddJobOfferAsync: stores one new offer built from the body and answers
        with it, generated Id included; a store failure propagates. */
    method AddJobOffer(dto: JobOfferCreateDto, now: Timestamp, fault: bool) returns (r: Outcome<Response<JobOfferDto>>)
      requires repository.context.Valid()
      modifies repository.context
      ensures repository.context.Valid()
      ensures fault ==> r == Thrown(StoreFailure) && unchanged(repository.context)
      ensures !fault ==>
        var id := old(repository.context.nextOfferId);
        var stored := OfferFromCreateDto(dto, now).(id := id);
        && id !in old(repository.context.jobOffers)
        && repository.context.jobOffers == old(repository.context.jobOffers)[id := stored]
        && repository.context.jobApplications == old(repository.context.jobApplications)
        && repository.context.nextOfferId == id + 1
        && repository.context.nextApplicationId == old(repository.context.nextApplicationId)
        && r == Returned(Response(true, OfferCreated, Some(OfferToDto(stored))))
      ensures r.Returned? ==>
        var d := r.value.data.value;
        && d.title == dto.title && d.description == dto.description && d.location == dto.location
        && d.salary == dto.salary && d.contractType == dto.contractType && d.datePosted == now
        && d.id in repository.context.jobOffers && OfferToDto(repository.context.jobOffers[d.id]) == d
      ensures old(repository.context.NoOrphanedApplications()) ==> repository.context.NoOrphanedApplications()
    {
      var response: Response<JobOfferDto> := NewResponse();
      var jobOffer := OfferFromCreateDto(dto, now);
      var added := repository.AddJobOffer(jobOffer, fault);
      if added.Thrown? {
        return Thrown(added.error);
      }
      jobOffer := added.value;
      response := response.(isSuccess := true);
      response := response.(message := OfferCreated);
      response := response.(data := Some(OfferToDto(jobOffer)));
      r := Returned(response);
    }

    /** UpdateJobOfferAsync: looks the offer up first and never calls the
        repository update when it is missing; otherwise copies the five body
        fields onto it. Store failures propagate. */
    method UpdateJobOffer(id: int, dto: JobOfferUpdateDto, lookupFault: bool, writeFault: bool)
      returns (r: Outcome<Response<JobOfferDto>>)
      requires repository.context.Valid()
      modifies repository.context
      ensures repository.context.Valid()
      ensures lookupFault ==> r == Thrown(StoreFailure) && unchanged(repository.context)
      ensures !lookupFault && id !in old(repository.context.jobOffers) ==>
        r == Returned(Response(false, OfferNotFoundOnUpdate, None)) && unchanged(repository.context)
      ensures !lookupFault && id in old(repository.context.jobOffers) && writeFault ==>
        r == Thrown(StoreFailure) && unchanged(repository.context)
      ensures !lookupFault && id in old(repository.context.jobOffers) && !writeFault ==>
        && repository.context.jobOffers.Keys == old(repository.context.jobOffers).Keys
        && IsUpdateOf(repository.context.jobOffers[id], old(repository.context.jobOffers)[id], dto)
        && (forall k :: k in repository.context.jobOffers && k != id ==>
              repository.context.jobOffers[k] == old(repository.context.jobOffers)[k])
        && repository.context.jobApplications == old(repository.context.jobApplications)
        && repository.context.nextOfferId == old(repository.context.nextOfferId)
        && repository.context.nextApplicationId == old(repository.context.nextApplicationId)
        && r == Returned(Response(true, OfferUpdated, Some(OfferToDto(repository.context.jobOffers[id]))))
      ensures old(repository.context.NoOrphanedApplications()) ==> repository.context.NoOrphanedApplications()
    {
      var response: Response<JobOfferDto> := NewResponse();
      var found := repository.GetJobOfferById(id, lookupFault);
      if found.Thrown? {
        return Thrown(found.error);
      }
      if found.value.None? {
        response := response.(isSuccess := false);
        response := response.(message := OfferNotFoundOnUpdate);
        response := response.(data := None);
        return Returned(response);
      }
      var jobOffer := found.value.value;
      jobOffer := jobOffer.(title := dto.title);
      jobOffer := jobOffer.(description := dto.description);
      jobOffer := jobOffer.(location := dto.location);
      jobOffer := jobOffer.(salary := dto.salary);
      jobOffer := jobOffer.(contractType := dto.contractType);
      var written := repository.UpdateJobOffer(jobOffer, writeFault);
      if written.Thrown? {
        return Thrown(written.error);
      }
      response := response.(isSuccess := true);
      response := response.(message := OfferUpdated);
      response := response.(data := Some(OfferToDto(jobOffer)));
      r := Returned(response);
    }

    /** DeleteJobOfferAsync: never throws. A missing offer gives a not-found
        envelope and no delete; an existing one is removed together with its
        applications. */
    method DeleteJobOffer(id: int, lookupFault: bool, deleteFault: bool) returns (r: Outcome<Response<JobOfferDto>>)
      requires repository.context.Valid()
      modifies repository.context
      ensures repository.context.Valid()
      ensures r.Returned? && r.value.data.None?
      ensures lookupFault ==> r.value == Response(false, OfferDeletionError, None) && unchanged(repository.context)
      ensures !lookupFault && id !in old(repository.context.jobOffers) ==>
        r.value == Response(false, OfferNotFoundMessage, None) && unchanged(repository.context)
      ensures !lookupFault && id in old(repository.context.jobOffers) && deleteFault ==>
        r.value == Response(false, OfferDeletionError, None) && unchanged(repository.context)
      ensures !lookupFault && id in old(repository.context.jobOffers) && !deleteFault ==>
        && r.value == Response(true, OfferDeleted, None)
        && repository.context.jobOffers == old(repository.context.jobOffers) - {id}
        && repository.context.jobApplications == Data.CascadeDelete(old(repository.context.jobApplications), id)
        && repository.context.nextOfferId == old(repository.context.nextOfferId)
        && repository.context.nextApplicationId == old(repository.context.nextApplicationId)
      ensures old(repository.context.NoOrphanedApplications()) ==> repository.context.NoOrphanedApplications()
    {
      var found := repository.GetJobOfferById(id, lookupFault);
      if found.Thrown? {
        return Returned(Response(false, OfferDeletionError, None));
      }
      if found.value.None? {
        return Returned(Response(false, OfferNotFoundMessage, None));
      }
      var deleted := repository.DeleteJobOffer(id, deleteFault);
      if deleted.Thrown? {
        return Returned(Response(false, OfferDeletionError, None));
      }
      r := Returned(Response(true, OfferDeleted, None));
    }

    /** GetJobApplicationsByJobOfferIdAsync: a missing offer gives a failure
        envelope with EMPTY data (not null); otherwise a success envelope with
        exactly that offer's applications. A store failure propagates. */
    function GetJobApplicationsByJobOfferId(id: int, fault: bool): (r: Outcome<Response<set<JobApplicationDto>>>)
      requires repository.context.Valid()
      reads repository.context
      ensures fault ==> r == Thrown(StoreFailure)
      ensures !fault && id !in repository.context.jobOffers ==>
        r == Returned(Response(false, OfferWithIdNotFound, Some({})))
      ensures !fault && id in repository.context.jobOffers ==>
        var apps := repository.context.jobApplications;
        && r.Returned? && r.value.isSuccess && r.value.data.Some?
        && r.value.message == (if Data.ApplicationsOf(apps, id) == {} then NoApplicationsForOffer else ApplicationsRetrieved)
        && |r.value.data.value| == |Data.ApplicationsOf(apps, id)|
        && (forall d :: d in r.value.data.value <==>
              d.id in apps && apps[d.id].jobOfferId == id && ApplicationToDto(apps[d.id]) == d)
    {
      match repository.GetJobOfferWithApplicationsById(id, fault)
      case Thrown(e) => Thrown(e)
      case Returned(None) => Returned(Response(false, OfferWithIdNotFound, Some({})))
      case Returned(Some(found)) =>
        var apps := repository.context.jobApplications;
        Data.KeyedApplicationsCount(apps);
        ApplicationDtosOfTable(apps, found.applications);
        if found.applications == {} then Returned(Response(true, NoApplicationsForOffer, Some({})))
        else Returned(Response(true, ApplicationsRetrieved, Some(ApplicationDtos(found.applications))))
    }
  }

  class JobApplicationService {
    const repository: Repositories.JobApplicationRepository
    const jobOfferRepository: Repositories.JobOfferRepository

    constructor (repository: Repositories.JobApplicationRepository, jobOfferRepository: Repositories.JobOfferRepository)
      ensures this.repository == repository && this.jobOfferRepository == jobOfferRepository
    {
      this.repository := repository;
      this.jobOfferRepository := jobOfferRepository;
    }

    /** Both repositories work on the one database, and it is consistent. */
    ghost predicate Valid()
      reads repository.context, jobOfferRepository.context
    {
      repository.context == jobOfferRepository.context && repository.context.Valid()
    }

    /** GetAllJobApplicationsAsync: one DTO per stored application; a store
        failure propagates (this catch block only rethrows). */
    function GetAllJobApplications(fault: bool): (r: Outcome<Response<set<JobApplicationDto>>>)
      requires Valid()
      reads repository.context, jobOfferRepository.context
      ensures fault ==> r == Thrown(StoreFailure)
      ensures !fault ==>
        var apps := repository.context.jobApplications;
        && r.Returned? && r.value.isSuccess && r.value.data.Some?
        && r.value.message == (if apps == map[] then NoApplicationsAvailable else OffersRetrieved)
        && |r.value.data.value| == |apps|
        && (forall d :: d in r.value.data.value <==> d.id in apps && ApplicationToDto(apps[d.id]) == d)
    {
      match repository.GetAllJobApplications(fault)
      case Thrown(e) => Thrown(e)
      case Returned(apps) =>
        ApplicationDtosOfTable(repository.context.jobApplications, apps);
        if apps == {} then Returned(Response(true, NoApplicationsAvailable, Some({})))
        else Returned(Response(true, OffersRetrieved, Some(ApplicationDtos(apps))))
    }

    /** GetJobApplicationByIdAsync: never throws; a missing application and a
        store failure both give a failure envelope without data. */
    function GetJobApplicationById(id: int, fault: bool): (r: Outcome<Response<JobApplicationDto>>)
      requires Valid()
      reads repository.context, jobOfferRepository.context
      ensures r.Returned?
      ensures fault ==> r.value == Response(false, InternalServerError, None)
      ensures !fault && id !in repository.context.jobApplications ==>
        r.value == Response(false, ApplicationNotFound, None)
      ensures !fault && id in repository.context.jobApplications ==>
        && r.value.isSuccess && r.value.message == ApplicationRetrieved
        && r.value.data == Some(ApplicationToDto(repository.context.jobApplications[id]))
        && r.value.data.value.id == id
        && r.value.data.value.candidateName == repository.context.jobApplications[id].candidateName
    {
      match repository.GetJobApplicationById(id, fault)
      case Thrown(_) => Returned(Response(false, InternalServerError, None))
      case Returned(None) => Returned(Response(false, ApplicationNotFound, None))
      case Returned(Some(application)) =>
        Returned(Response(true, ApplicationRetrieved, Some(ApplicationToDto(application))))
    }

    /** AddJobApplicationAsync: never throws. The offer is looked up first; a
        missing offer gives a failure envelope and no insert, so the
        application that is inserted always references an existing offer. */
    method AddJobApplication(dto: JobApplicationCreateDto, now: Timestamp, lookupFault: bool, addFault: bool)
      returns (r: Outcome<Response<JobApplicationDto>>)
      requires Valid()
      modifies repository.context
      ensures Valid()
      ensures r.Returned?
      ensures lookupFault ==> r.value == Response(false, ApplicationAddError, None) && unchanged(repository.context)
      ensures !lookupFault && dto.jobOfferId !in old(repository.context.jobOffers) ==>
        r.value == Response(false, OfferToApplyNotFound, None) && unchanged(repository.context)
      ensures !lookupFault && dto.jobOfferId in old(repository.context.jobOffers) && addFault ==>
        r.value == Response(false, ApplicationAddError, None) && unchanged(repository.context)
      ensures !lookupFault && dto.jobOfferId in old(repository.context.jobOffers) && !addFault ==>
        var id := old(repository.context.nextApplicationId);
        var stored := ApplicationFromCreateDto(dto, now).(id := id);
        && id !in old(repository.context.jobApplications)
        && repository.context.jobApplications == old(repository.context.jobApplications)[id := stored]
        && repository.context.jobOffers == old(repository.context.jobOffers)
        && repository.context.nextApplicationId == id + 1
        && repository.context.nextOfferId == old(repository.context.nextOfferId)
        && r.value == Response(true, Applied, Some(ApplicationToDto(stored)))
        && r.value.data.value.candidateName == dto.candidateName
      ensures r.value.isSuccess ==> r.value.data.value.jobOfferId in repository.context.jobOffers
      ensures old(repository.context.NoOrphanedApplications()) ==> repository.context.NoOrphanedApplications()
    {
      var found := jobOfferRepository.GetJobOfferById(dto.jobOfferId, lookupFault);
      if found.Thrown? {
        return Returned(Response(false, ApplicationAddError, None));
      }
      if found.value.None? {
        return Returned(Response(false, OfferToApplyNotFound, None));
      }
      var jobOffer := found.value.value;
      // Setting the JobOffer navigation makes the stored foreign key the looked-up offer's id.
      var jobApplication := ApplicationFromCreateDto(dto, now).(jobOfferId := jobOffer.id);
      var added := repository.AddJobApplication(jobApplication, addFault);
      if added.Thrown? {
        return Returned(Response(false, ApplicationAddError, None));
      }
      r := Returned(Response(true, Applied, Some(ApplicationToDto(added.value))));
    }

    /** DeleteJobApplicationAsync: never throws. A missing application gives a
        not-found envelope and no delete; an existing one is removed alone. */
    method DeleteJobApplication(id: int, lookupFault: bool, deleteFault: bool)
      returns (r: Outcome<Response<JobApplicationDto>>)
      requires Valid()
      modifies repository.context
      ensures Valid()
      ensures r.Returned? && r.value.data.None?
      ensures lookupFault ==> r.value == Response(false, ApplicationDeletionError, None) && unchanged(repository.context)
      ensures !lookupFault && id !in old(repository.context.jobApplications) ==>
        r.value == Response(false, ApplicationNotFound, None) && unchanged(repository.context)
      ensures !lookupFault && id in old(repository.context.jobApplications) && deleteFault ==>
        r.value == Response(false, ApplicationDeletionError, None) && unchanged(repository.context)
      ensures !lookupFault && id in old(repository.context.jobApplications) && !deleteFault ==>
        && r.value == Response(true, ApplicationDeleted, None)
        && repository.context.jobApplications == old(repository.context.jobApplications) - {id}
        && repository.context.jobOffers == old(repository.context.jobOffers)
        && repository.context.nextOfferId == old(repository.context.nextOfferId)
        && repository.context.nextApplicationId == old(repository.context.nextApplicationId)
      ensures old(repository.context.NoOrphanedApplications()) ==> repository.context.NoOrphanedApplications()
    {
      var found := repository.GetJobApplicationById(id, lookupFault);
      if found.Thrown? {
        return Returned(Response(false, ApplicationDeletionError, None));
      }
      if found.value.None? {
        return Returned(Response(false, ApplicationNotFound, None));
      }
      var deleted := repository.DeleteJobApplication(id, deleteFault);
      if deleted.Thrown? {
        return Returned(Response(false, ApplicationDeletionError, None));
      }
      r := Returned(Response(true, ApplicationDeleted, None));
    }
  }
}
