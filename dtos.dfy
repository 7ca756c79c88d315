/** The transfer shapes returned to callers and accepted for applications, and
    the field-by-field copies that JobMappingsProfile configures. */
module Dtos {

  import opened Models
  import opened JobOfferBase
  import Collections

  datatype JobOfferDto = JobOfferDto(
    id: int,
    title: string,
    description: string,
    location: string,
    salary: Money,
    contractType: string,
    datePosted: Timestamp)

  datatype JobApplicationDto = JobApplicationDto(
    id: int,
    candidateName: string,
    candidateEmail: string,
    jobOfferId: int,
    dateApplied: Timestamp)

  datatype JobApplicationCreateDto = JobApplicationCreateDto(
    candidateName: string,
    candidateEmail: string,
    jobOfferId: int)

  /** JobOffer -> JobOfferDto. */
  function OfferToDto(o: JobOffer): JobOfferDto {
    JobOfferDto(o.id, o.title, o.description, o.location, o.salary, o.contractType, o.datePosted)
  }

  /** JobOfferCreateDto -> JobOffer: Id is left at 0 for the store to assign,
      DatePosted takes its initialiser, the current time `now`. */
  function OfferFromCreateDto(dto: JobOfferCreateDto, now: Timestamp): JobOffer {
    JobOffer(0, dto.title, dto.description, dto.location, dto.salary, dto.contractType, now)
  }

  /** JobApplication -> JobApplicationDto. */
  function ApplicationToDto(a: JobApplication): JobApplicationDto {
    JobApplicationDto(a.id, a.candidateName, a.candidateEmail, a.jobOfferId, a.dateApplied)
  }

  /** JobApplicationCreateDto -> JobApplication: Id 0, DateApplied `now`. */
  function ApplicationFromCreateDto(dto: JobApplicationCreateDto, now: Timestamp): JobApplication {
    JobApplication(0, dto.candidateName, dto.candidateEmail, dto.jobOfferId, now)
  }

  /** Mapping a collection of offers. */
  function OfferDtos(offers: set<JobOffer>): set<JobOfferDto> {
    set o | o in offers :: OfferToDto(o)
  }

  /** Mapping a collection of applications. */
  function ApplicationDtos(apps: set<JobApplication>): set<JobApplicationDto> {
    set a | a in apps :: ApplicationToDto(a)
  }

  /** Offers with distinct ids map to as many DTOs. */
  lemma OfferDtosCount(offers: set<JobOffer>)
    requires forall o, o' :: o in offers && o' in offers && o.id == o'.id ==> o == o'
    ensures |OfferDtos(offers)| == |offers|
  {
    var f: JobOffer -> JobOfferDto := OfferToDto;
    Collections.InjectiveImageCardinality(offers, f);
    assert OfferDtos(offers) == Collections.Image(offers, f);
  }

  /** Applications with distinct ids map to as many DTOs. */
  lemma ApplicationDtosCount(apps: set<JobApplication>)
    requires forall a, a' :: a in apps && a' in apps && a.id == a'.id ==> a == a'
    ensures |ApplicationDtos(apps)| == |apps|
  {
    var f: JobApplication -> JobApplicationDto := ApplicationToDto;
    Collections.InjectiveImageCardinality(apps, f);
    assert ApplicationDtos(apps) == Collections.Image(apps, f);
  }
}
