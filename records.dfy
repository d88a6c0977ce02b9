/** The link record: the unit of state shared by the remote service, the history and local storage. */
module Records {
  import opened Wrappers

  /**
   * A link record as the remote service returns it and as the history keeps it.
   * `shortCode` identifies the record; the other fields are whatever the service sent,
   * and absent ones are `None`.
   */
  datatype LinkRecord = LinkRecord(
    shortCode: string,
    url: string,
    createdAt: Option<string>,
    updatedAt: Option<string>,
    accessCount: Option<int>)
}
