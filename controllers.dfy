/** JobOffersController and JobApplicationsController: each action calls one
    service operation and turns its outcome into an HTTP status and a body.
    An exception that reaches the action's catch block becomes a 500 with the
    fixed internal-error envelope. ModelState.IsValid is an input: for offers
    it is the JobOfferBaseDto predicate, for applications a flag. */
module Controllers {

  import opened Envelopes
  import opened Models
  import opened Dtos
  import opened JobOfferBase
  import Data
  import Services

  type StatusCode = int

  const OkStatus: StatusCode := 200
  const CreatedStatus: StatusCode := 201
  const BadRequestStatus: StatusCode := 400
  const NotFoundStatus: StatusCode := 404
  const ServerErrorStatus: StatusCode := 500

  const InvalidModel := "Modelo de datos no válido."

  /** An IActionResult: the status code, the envelope in the body and, for
      CreatedAtAction, the id placed in the route to the new resource. */
  datatype ActionResult<+T> = ActionResult(status: StatusCode, body: Response<T>, routeId: Option<int>)

  /** The 500 answer of every catch block. */
  function ServerErrorResult<T>(): ActionResult<T> {
    ActionResult(ServerErrorStatus, Response(false, InternalServerError, None), None)
  }

  predicate IsServerError<T>(r: ActionResult<T>) {
    r.status == ServerErrorStatus && !r.body.isSuccess && r.body.message == InternalServerError
    && r.body.data.None? && r.routeId.None?
  }

  /** `BadRequest` with the invalid-model envelope. */
  function InvalidModelResult<T>(): ActionResult<T> {
    ActionResult(BadRequestStatus, Response(false, InvalidModel, None), None)
  }

  /** `Ok(response)` for a returned envelope. */
  function OkOrServerError<T>(outcome: Outcome<Response<T>>): (r: ActionResult<T>)
    ensures outcome.Returned? ==> r.status == OkStatus && r.body == outcome.value && r.routeId.None?
    ensures outcome.Thrown? ==> IsServerError(r)
  {
    match outcome
    case Returned(response) => ActionResult(OkStatus, response, None)
    case Thrown(_) => ServerErrorResult()
  }

  /** `if (!response.IsSuccess && response.Data == null) return NotFound(response); return Ok(response);` */
  function NotFoundUnlessFound<T>(outcome: Outcome<Response<T>>): (r: ActionResult<T>)
    ensures r.status == NotFoundStatus <==> outcome.Returned? && IsFailureWithoutData(outcome.value)
    ensures r.status == OkStatus <==> outcome.Returned? && !IsFailureWithoutData(outcome.value)
    ensures outcome.Returned? ==> r.body == outcome.value && r.routeId.None?
    ensures outcome.Thrown? ==> IsServerError(r)
  {
    match outcome
    case Returned(response) =>
      if IsFailureWithoutData(response) then ActionResult(NotFoundStatus, response, None)
      else ActionResult(OkStatus, response, None)
    case Thrown(_) => ServerErrorResult()
  }

  /** `CreatedAtAction(..., new { id = response.Data!.Id }, response)`: a null
      Data raises a NullReferenceException, which the catch block turns into 500. */
  function CreatedOrServerError<T>(outcome: Outcome<Response<T>>, idOf: T -> int): (r: ActionResult<T>)
    ensures r.status == CreatedStatus <==> outcome.Returned? && outcome.value.data.Some?
    ensures r.status == CreatedStatus ==> r.body == outcome.value && r.routeId == Some(idOf(outcome.value.data.value))
    ensures r.status != CreatedStatus ==> IsServerError(r)
  {
    match outcome
    case Returned(response) =>
      if response.data.Some? then ActionResult(CreatedStatus, response, Some(idOf(response.data.value)))
      else ServerErrorResult()
    case Thrown(_) => ServerErrorResult()
  }

  function OfferDtoId(d: JobOfferDto): int { d.id }
  function ApplicationDtoId(d: JobApplicationDto): int { d.id }

  class JobOffersController {
    const service: Services.JobOfferService

    constructor (service: Services.JobOfferService)
      ensures this.service == service
    {
      this.service := service;
    }

    /** GET api/JobOffers: always 200 with the service's envelope, even when the
        store failed (the service reports that in the envelope). */
    function GetAllJobOffers(fault: bool): (r: ActionResult<set<JobOfferDto>>)
      requires service.repository.context.Valid()
      reads service.repository.context
      ensures r.status == OkStatus && r.body == service.GetAllJobOffers(fault).value
      ensures r.body.isSuccess <==> !fault
    {
      OkOrServerError(service.GetAllJobOffers(fault))
    }

    /** GET api/JobOffers/{id}: 200 with the offer when it is stored; 404
        otherwise, and also when the store failed. */
    function GetJobOfferById(id: int, fault: bool): (r: ActionResult<JobOfferDto>)
      requires service.repository.context.Valid()
      reads service.repository.context
      ensures r.status == NotFoundStatus <==> fault || id !in service.repository.context.jobOffers
      ensures r.status == OkStatus <==> !fault && id in service.repository.context.jobOffers
      ensures r.status == OkStatus ==>
        r.body.isSuccess && r.body.data == Some(OfferToDto(service.repository.context.jobOffers[id]))
      ensures r.body == service.GetJobOfferById(id, fault).value
    {
      NotFoundUnlessFound(service.GetJobOfferById(id, fault))
    }

    /** POST api/JobOffers: an invalid body is refused with 400 before the
        service is called; otherwise 201 with the route id of the new offer,
        or 500 when the store failed. */
    method CreateJobOffer(dto: JobOfferCreateDto, now: Timestamp, fault: bool) returns (r: ActionResult<JobOfferDto>)
      requires service.repository.context.Valid()
      modifies service.repository.context
      ensures service.repository.context.Valid()
      ensures !IsValid(dto) ==> r == InvalidModelResult() && unchanged(service.repository.context)
      ensures IsValid(dto) && fault ==> IsServerError(r) && unchanged(service.repository.context)
      ensures IsValid(dto) && !fault ==>
        var id := old(service.repository.context.nextOfferId);
        var stored := OfferFromCreateDto(dto, now).(id := id);
        && r == ActionResult(CreatedStatus, Response(true, Services.OfferCreated, Some(OfferToDto(stored))), Some(id))
        && id !in old(service.repository.context.jobOffers)
        && service.repository.context.jobOffers == old(service.repository.context.jobOffers)[id := stored]
        && service.repository.context.jobApplications == old(service.repository.context.jobApplications)
        && service.repository.context.nextOfferId == id + 1
        && service.repository.context.nextApplicationId == old(service.repository.context.nextApplicationId)
      ensures old(service.repository.context.NoOrphanedApplications()) ==> service.repository.context.NoOrphanedApplications()
    {
      if !IsValid(dto) {
        return InvalidModelResult();
      }
      var outcome := service.AddJobOffer(dto, now, fault);
      r := CreatedOrServerError(outcome, OfferDtoId);
    }

    /** PUT api/JobOffers/{id}: 400 for an invalid body (no service call), 404
        for a missing offer, 200 with the updated offer, 500 when the store failed. */
    method UpdateJobOffer(id: int, dto: JobOfferUpdateDto, lookupFault: bool, writeFault: bool)
      returns (r: ActionResult<JobOfferDto>)
      requires service.repository.context.Valid()
      modifies service.repository.context
      ensures service.repository.context.Valid()
      ensures !IsValid(dto) ==> r == InvalidModelResult() && unchanged(service.repository.context)
      ensures IsValid(dto) && (lookupFault || (id in old(service.repository.context.jobOffers) && writeFault)) ==>
        IsServerError(r) && unchanged(service.repository.context)
      ensures IsValid(dto) && !lookupFault && id !in old(service.repository.context.jobOffers) ==>
        r.status == NotFoundStatus && r.body == Response(false, Services.OfferNotFoundOnUpdate, None)
        && unchanged(service.repository.context)
      ensures IsValid(dto) && !lookupFault && id in old(service.repository.context.jobOffers) && !writeFault ==>
        && r.status == OkStatus
        && service.repository.context.jobOffers.Keys == old(service.repository.context.jobOffers).Keys
        && r.body == Response(true, Services.OfferUpdated, Some(OfferToDto(service.repository.context.jobOffers[id])))
        && Services.IsUpdateOf(service.repository.context.jobOffers[id], old(service.repository.context.jobOffers)[id], dto)
        && (forall k :: k in service.repository.context.jobOffers && k != id ==>
              service.repository.context.jobOffers[k] == old(service.repository.context.jobOffers)[k])
        && service.repository.context.jobApplications == old(service.repository.context.jobApplications)
        && service.repository.context.nextOfferId == old(service.repository.context.nextOfferId)
        && service.repository.context.nextApplicationId == old(service.repository.context.nextApplicationId)
      ensures old(service.repository.context.NoOrphanedApplications()) ==> service.repository.context.NoOrphanedApplications()
    {
      if !IsValid(dto) {
        return InvalidModelResult();
      }
      var outcome := service.UpdateJobOffer(id, dto, lookupFault, writeFault);
      r := NotFoundUnlessFound(outcome);
    }

    /** DELETE api/JobOffers/{id}: 200 when the offer (and, by the cascade, its
        applications) was removed; 404 otherwise, also when the store failed. */
    method DeleteJobOffer(id: int, lookupFault: bool, deleteFault: bool) returns (r: ActionResult<JobOfferDto>)
      requires service.repository.context.Valid()
      modifies service.repository.context
      ensures service.repository.context.Valid()
      ensures r.status == OkStatus <==> !lookupFault && !deleteFault && id in old(service.repository.context.jobOffers)
      ensures r.status != OkStatus ==> r.status == NotFoundStatus && unchanged(service.repository.context)
      ensures r.status == OkStatus ==>
        && r.body == Response(true, Services.OfferDeleted, None)
        && service.repository.context.jobOffers == old(service.repository.context.jobOffers) - {id}
        && service.repository.context.jobApplications == Data.CascadeDelete(old(service.repository.context.jobApplications), id)
        && service.repository.context.nextOfferId == old(service.repository.context.nextOfferId)
        && service.repository.context.nextApplicationId == old(service.repository.context.nextApplicationId)
      ensures old(service.repository.context.NoOrphanedApplications()) ==> service.repository.context.NoOrphanedApplications()
    {
      var outcome := service.DeleteJobOffer(id, lookupFault, deleteFault);
      r := NotFoundUnlessFound(outcome);
    }

    /** GET api/JobOffers/{id}/applications: 404 whenever the envelope reports
        failure, whatever its data; 200 with the offer's applications; 500 when
        the store failed (this service call rethrows). */
    function GetJobApplicationsByJobOfferId(id: int, fault: bool): (r: ActionResult<set<JobApplicationDto>>)
      requires service.repository.context.Valid()
      reads service.repository.context
      ensures fault ==> IsServerError(r)
      ensures !fault && id !in service.repository.context.jobOffers ==>
        r.status == NotFoundStatus && r.body == Response(false, Services.OfferWithIdNotFound, Some({}))
      ensures !fault && id in service.repository.context.jobOffers ==>
        r.status == OkStatus && r.body == service.GetJobApplicationsByJobOfferId(id, fault).value
        && r.body.data.Some?
        && |r.body.data.value| == |Data.ApplicationsOf(service.repository.context.jobApplications, id)|
    {
      match service.GetJobApplicationsByJobOfferId(id, fault)
      case Returned(response) =>
        if !response.isSuccess then ActionResult(NotFoundStatus, response, None)
        else ActionResult(OkStatus, response, None)
      case Thrown(_) => ServerErrorResult()
    }
  }

  class JobApplicationsController {
    const service: Services.JobApplicationService

    constructor (service: Services.JobApplicationService)
      ensures this.service == service
    {
      this.service := service;
    }

    /** GET api/JobApplications: 200 with the service's envelope; 500 when the
        store failed (this service call rethrows). */
    function GetAllJobApplications(fault: bool): (r: ActionResult<set<JobApplicationDto>>)
      requires service.Valid()
      reads service.repository.context, service.jobOfferRepository.context
      ensures fault ==> IsServerError(r)
      ensures !fault ==>
        r.status == OkStatus && r.body == service.GetAllJobApplications(fault).value
        && r.body.isSuccess && |r.body.data.value| == |service.repository.context.jobApplications|
    {
      OkOrServerError(service.GetAllJobApplications(fault))
    }

    /** GET api/JobApplications/{id}: 200 when stored, 404 otherwise and also
        when the store failed. */
    function GetJobApplicationById(id: int, fault: bool): (r: ActionResult<JobApplicationDto>)
      requires service.Valid()
      reads service.repository.context, service.jobOfferRepository.context
      ensures r.status == NotFoundStatus <==> fault || id !in service.repository.context.jobApplications
      ensures r.status == OkStatus <==> !fault && id in service.repository.context.jobApplications
      ensures r.status == OkStatus ==>
        r.body.data == Some(ApplicationToDto(service.repository.context.jobApplications[id]))
      ensures r.body == service.GetJobApplicationById(id, fault).value
    {
      NotFoundUnlessFound(service.GetJobApplicationById(id, fault))
    }

    /** POST api/JobApplications: 400 for an invalid body (no service call);
        404 when the offer does not exist (the doc comment promises 400) and
        whenever the service reports a failure; 201 with the new id otherwise. */
    method CreateJobApplication(modelValid: bool, dto: JobApplicationCreateDto, now: Timestamp,
                                lookupFault: bool, addFault: bool)
      returns (r: ActionResult<JobApplicationDto>)
      requires service.Valid()
      modifies service.repository.context
      ensures service.Valid()
      ensures !modelValid ==> r == InvalidModelResult() && unchanged(service.repository.context)
      ensures modelValid && !lookupFault && dto.jobOfferId !in old(service.repository.context.jobOffers) ==>
        r.status == NotFoundStatus && r.body == Response(false, Services.OfferToApplyNotFound, None)
      ensures modelValid && (lookupFault || dto.jobOfferId !in old(service.repository.context.jobOffers) || addFault) ==>
        r.status == NotFoundStatus && unchanged(service.repository.context)
      ensures modelValid && !lookupFault && dto.jobOfferId in old(service.repository.context.jobOffers) && !addFault ==>
        var id := old(service.repository.context.nextApplicationId);
        var stored := ApplicationFromCreateDto(dto, now).(id := id);
        && r == ActionResult(CreatedStatus, Response(true, Services.Applied, Some(ApplicationToDto(stored))), Some(id))
        && id !in old(service.repository.context.jobApplications)
        && service.repository.context.jobApplications == old(service.repository.context.jobApplications)[id := stored]
        && service.repository.context.jobOffers == old(service.repository.context.jobOffers)
        && service.repository.context.nextApplicationId == id + 1
        && service.repository.context.nextOfferId == old(service.repository.context.nextOfferId)
      ensures old(service.repository.context.NoOrphanedApplications()) ==> service.repository.context.NoOrphanedApplications()
    {
      if !modelValid {
        return InvalidModelResult();
      }
      var outcome := service.AddJobApplication(dto, now, lookupFault, addFault);
      if outcome.Returned? && IsFailureWithoutData(outcome.value) {
        return ActionResult(NotFoundStatus, outcome.value, None);
      }
      r := CreatedOrServerError(outcome, ApplicationDtoId);
    }

    /** DELETE api/JobApplications/{id}: 200 when that one application was
        removed; 404 otherwise, also when the store failed. */
    method DeleteJobApplication(id: int, lookupFault: bool, deleteFault: bool) returns (r: ActionResult<JobApplicationDto>)
      requires service.Valid()
      modifies service.repository.context
      ensures service.Valid()
      ensures r.status == OkStatus <==> !lookupFault && !deleteFault && id in old(service.repository.context.jobApplications)
      ensures r.status != OkStatus ==> r.status == NotFoundStatus && unchanged(service.repository.context)
      ensures r.status == OkStatus ==>
        && r.body == Response(true, Services.ApplicationDeleted, None)
        && service.repository.context.jobApplications == old(service.repository.context.jobApplications) - {id}
        && service.repository.context.jobOffers == old(service.repository.context.jobOffers)
        && service.repository.context.nextOfferId == old(service.repository.context.nextOfferId)
        && service.repository.context.nextApplicationId == old(service.repository.context.nextApplicationId)
      ensures old(service.repository.context.NoOrphanedApplications()) ==> service.repository.context.NoOrphanedApplications()
    {
      var outcome := service.DeleteJobApplication(id, lookupFault, deleteFault);
      r := NotFoundUnlessFound(outcome);
    }
  }
}
