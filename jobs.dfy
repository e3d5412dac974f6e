/** The job postings and applications shared by the worker and employer dashboards. */
module Jobs {

  /** A row of `jobs`. Text fields that may be absent are read as the empty string. */
  datatype Job = Job(
    id: string,
    title: string,
    description: string,
    location: string,
    pay: int,
    workerType: string,
    employerId: string)

  /** `applications.status`. */
  datatype ApplicationStatus = AppPending | AppAccepted | AppRejected

  /** A row of `applications`. */
  datatype Application = Application(id: string, jobId: string, workerId: string, status: ApplicationStatus)
}
