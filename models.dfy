/** The two persisted entities (API/Models). The navigation properties
    (JobOffer.JobApplications, JobApplication.JobOffer) are not fields here:
    the store derives an offer's applications from the foreign key
    (see Data.ApplicationsOf). */
module Models {

  /** A point in time, supplied by the caller where the source reads DateTime.UtcNow. */
  type Timestamp = int

  /** Salary is a C# decimal: an exact number, modelled as a real. */
  type Money = real

  datatype JobOffer = JobOffer(
    id: int,
    title: string,
    description: string,
    location: string,
    salary: Money,
    contractType: string,
    datePosted: Timestamp)

  datatype JobApplication = JobApplication(
    id: int,
    candidateName: string,
    candidateEmail: string,
    jobOfferId: int,
    dateApplied: Timestamp)
}
