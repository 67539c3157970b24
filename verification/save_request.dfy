/** The outcome shared by the two forms' `handleSave`. */
module SaveRequests {
  /** What `handleSave` does: stop with a notice, or call `create` with the
      form data. */
  datatype SaveRequest = Rejected(notice: string) | Create(data: map<string, string>)
}
