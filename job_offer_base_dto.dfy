/** JobOfferBaseDto: the body of a create or update request for a job offer,
    and the data-annotation constraints ASP.NET checks before the action runs
    (ModelState). JobOfferCreateDto and JobOfferUpdateDto derive from it and
    add nothing, so both are this one type. */
module JobOfferBase {

  import opened Text
  import opened Models

  datatype JobOfferBaseDto = JobOfferBaseDto(
    title: string,
    description: string,
    location: string,
    salary: Money,
    contractType: string)

  type JobOfferCreateDto = JobOfferBaseDto
  type JobOfferUpdateDto = JobOfferBaseDto

  /** [MinLength(5)] on the four text fields. */
  const MinTextLength: nat := 5

  /** [Range(1, double.MaxValue)] on Salary. */
  const MinSalary: Money := 1.0

  /** [Required] on a string rejects null, empty and white-space-only values. */
  predicate Required(s: string) {
    !IsBlank(s)
  }

  /** [Required] together with [MinLength(5)]; MinLength compares string.Length. */
  predicate RequiredWithMinLength(s: string) {
    Required(s) && Utf16Length(s) >= MinTextLength
  }

  /** The properties ModelState can report an error on. */
  datatype Field = Title | Description | Location | Salary | ContractType

  /** The properties whose annotations reject the value: one ModelState entry each. */
  function FailingFields(dto: JobOfferBaseDto): (r: set<Field>)
    ensures Title in r <==> !RequiredWithMinLength(dto.title)
    ensures Description in r <==> !RequiredWithMinLength(dto.description)
    ensures Location in r <==> !RequiredWithMinLength(dto.location)
    ensures Salary in r <==> dto.salary < MinSalary
    ensures ContractType in r <==> !RequiredWithMinLength(dto.contractType)
  {
    (if RequiredWithMinLength(dto.title) then {} else {Title})
    + (if RequiredWithMinLength(dto.description) then {} else {Description})
    + (if RequiredWithMinLength(dto.location) then {} else {Location})
    + (if dto.salary >= MinSalary then {} else {Salary})
    + (if RequiredWithMinLength(dto.contractType) then {} else {ContractType})
  }

  /** ModelState.IsValid for a create or update body: no property reports an error. */
  predicate IsValid(dto: JobOfferBaseDto) {
    FailingFields(dto) == {}
  }

  /** A body is accepted exactly when every one of the five constraints holds. */
  lemma ValidIffAllConstraintsHold(dto: JobOfferBaseDto)
    ensures IsValid(dto) <==>
      && Required(dto.title) && Utf16Length(dto.title) >= 5
      && Required(dto.description) && Utf16Length(dto.description) >= 5
      && Required(dto.location) && Utf16Length(dto.location) >= 5
      && dto.salary >= 1.0
      && Required(dto.contractType) && Utf16Length(dto.contractType) >= 5
  {
    if !IsValid(dto) {
      var f :| f in FailingFields(dto);
    }
  }

  /** For text without supplementary-plane characters, [Required] with
      [MinLength(5)] means: at least five characters, one of them not white space. */
  lemma TextConstraintOnBasicPlane(s: string)
    requires forall k :: 0 <= k < |s| ==> s[k] <= '\U{FFFF}'
    ensures RequiredWithMinLength(s) <==> |s| >= 5 && exists k :: 0 <= k < |s| && !IsWhiteSpace(s[k])
  {
  }

  /** Length alone is not enough: a white-space-only title fails [Required],
      however long it is. */
  lemma BlankTitleRejected(dto: JobOfferBaseDto)
    requires IsBlank(dto.title)
    ensures !IsValid(dto) && Title in FailingFields(dto)
  {
  }
}
