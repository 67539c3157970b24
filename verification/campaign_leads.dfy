/** The campaign-lead service: status defaults on insert, the status updates
    of the `markAs*` helpers, and the per-status statistics of a campaign.
    The database calls themselves are outside the model; their inputs and
    results are values. */
module CampaignLeads {
  import opened Wrappers

  /** The five values of `EmailStatus`. */
  datatype EmailStatus = Pending | Sent | Bounced | Opened | Clicked

  /** The text stored in the `status` column. */
  function StatusText(s: EmailStatus): string {
    match s
    case Pending => "pending"
    case Sent => "sent"
    case Bounced => "bounced"
    case Opened => "opened"
    case Clicked => "clicked"
  }

  predicate IsEmailStatus(text: string) {
    text in {"pending", "sent", "bounced", "opened", "clicked"}
  }

  // ---------------------------------------------------------------------------
  // Inserts

  /** `CreateCampaignLeadData`: the status may be left out. */
  datatype CreateData = CreateData(campaignId: string, leadId: string, status: Option<EmailStatus>)

  /** The record handed to the insert. */
  datatype InsertRecord = InsertRecord(campaignId: string, leadId: string, status: EmailStatus)

  /** The record `create` inserts: the given fields, with the status
      defaulting to pending. */
  function WithDefaultStatus(d: CreateData): (r: InsertRecord)
    ensures r.campaignId == d.campaignId && r.leadId == d.leadId
    ensures d.status.Some? ==> r.status == d.status.value
    ensures d.status.None? ==> r.status == Pending
  {
    InsertRecord(d.campaignId, d.leadId, d.status.GetOr(Pending))
  }

  /** The records `createMany` inserts: one per item, in order. */
  function WithDefaultStatuses(items: seq<CreateData>): (r: seq<InsertRecord>)
    ensures |r| == |items|
    ensures forall i :: 0 <= i < |items| ==> r[i] == WithDefaultStatus(items[i])
  {
    if items == [] then []
    else [WithDefaultStatus(items[0])] + WithDefaultStatuses(items[1..])
  }

  /** A bulk insert keeps every status that was given and writes `pending`
      for every missing one. */
  lemma {:induction false} GivenStatusesKept(items: seq<CreateData>)
    ensures forall i :: 0 <= i < |items| && items[i].status.Some? ==>
      WithDefaultStatuses(items)[i].status == items[i].status.value
    ensures forall i :: 0 <= i < |items| && items[i].status.None? ==>
      WithDefaultStatuses(items)[i].status == Pending
  {
    var r := WithDefaultStatuses(items);
    forall i | 0 <= i < |items| ensures r[i].status == items[i].status.GetOr(Pending) {
      assert r[i] == WithDefaultStatus(items[i]);
    }
  }

  // ---------------------------------------------------------------------------
  // Status updates

  /** `UpdateCampaignLeadData`. */
  datatype UpdateData = UpdateData(
    status: Option<EmailStatus>,
    sentAt: Option<string>,
    openedAt: Option<string>,
    clickedAt: Option<string>)

  /** The update a `markAs*` helper sends; `now` is the ISO timestamp of the
      moment of the call. Only the bounce carries no timestamp. */
  function MarkAs(status: EmailStatus, now: string): (u: UpdateData)
    requires status != Pending
    ensures u.status == Some(status)
    ensures u.sentAt == if status == Sent then Some(now) else None
    ensures u.openedAt == if status == Opened then Some(now) else None
    ensures u.clickedAt == if status == Clicked then Some(now) else None
    ensures status == Bounced <==> (u.sentAt.None? && u.openedAt.None? && u.clickedAt.None?)
  {
    match status
    case Sent => UpdateData(Some(Sent), Some(now), None, None)
    case Opened => UpdateData(Some(Opened), None, Some(now), None)
    case Clicked => UpdateData(Some(Clicked), None, None, Some(now))
    case Bounced => UpdateData(Some(Bounced), None, None, None)
  }

  // ---------------------------------------------------------------------------
  // Statistics

  /** `data.filter(item => item.status === status).length`: the number of
      rows carrying `status`, which is its multiplicity in the rows. */
  function CountStatus(statuses: seq<string>, status: string): (r: nat)
    ensures r == multiset(statuses)[status]
    ensures r <= |statuses|
  {
    if statuses == [] then 0
    else
      var rest := CountStatus(statuses[1..], status);
      assert statuses == [statuses[0]] + statuses[1..];
      (if statuses[0] == status then 1 else 0) + rest
  }

  datatype Stats = Stats(total: nat, pendingCount: nat, sentCount: nat, bouncedCount: nat, openedCount: nat, clickedCount: nat)

  function StatsOf(statuses: seq<string>): (st: Stats)
    ensures st.total == |statuses|
    ensures st.pendingCount == multiset(statuses)["pending"] && st.sentCount == multiset(statuses)["sent"]
    ensures st.bouncedCount == multiset(statuses)["bounced"] && st.openedCount == multiset(statuses)["opened"]
    ensures st.clickedCount == multiset(statuses)["clicked"]
    ensures st.pendingCount <= st.total && st.sentCount <= st.total && st.bouncedCount <= st.total
    ensures st.openedCount <= st.total && st.clickedCount <= st.total
  {
    Stats(
      |statuses|,
      CountStatus(statuses, "pending"),
      CountStatus(statuses, "sent"),
      CountStatus(statuses, "bounced"),
      CountStatus(statuses, "opened"),
      CountStatus(statuses, "clicked"))
  }

  function CountSum(st: Stats): nat {
    st.pendingCount + st.sentCount + st.bouncedCount + st.openedCount + st.clickedCount
  }

  /** When every row holds one of the five statuses, the five counts add up
      to the total. */
  lemma {:induction false} CountsSumToTotal(statuses: seq<string>)
    requires forall i :: 0 <= i < |statuses| ==> IsEmailStatus(statuses[i])
    ensures CountSum(StatsOf(statuses)) == StatsOf(statuses).total
  {
    if statuses != [] {
      CountsSumToTotal(statuses[1..]);
      assert statuses == [statuses[0]] + statuses[1..];
    }
  }

  /** The count the statistics keep for `s`. */
  function CountOf(st: Stats, s: EmailStatus): nat {
    match s
    case Pending => st.pendingCount
    case Sent => st.sentCount
    case Bounced => st.bouncedCount
    case Opened => st.openedCount
    case Clicked => st.clickedCount
  }

  /** The five status texts are exactly the accepted ones, one per status. */
  lemma StatusTextsAreTheStatuses(text: string)
    ensures IsEmailStatus(text) <==> exists s: EmailStatus :: StatusText(s) == text
    ensures forall s, t: EmailStatus :: StatusText(s) == StatusText(t) ==> s == t
  {
    if IsEmailStatus(text) {
      if text == "pending" { assert StatusText(Pending) == text; }
      else if text == "sent" { assert StatusText(Sent) == text; }
      else if text == "bounced" { assert StatusText(Bounced) == text; }
      else if text == "opened" { assert StatusText(Opened) == text; }
      else { assert StatusText(Clicked) == text; }
    }
  }

  /** Each count of the statistics is the number of rows holding that
      status's text. */
  lemma StatsCountEachStatus(statuses: seq<string>)
    ensures forall s: EmailStatus :: CountOf(StatsOf(statuses), s) == multiset(statuses)[StatusText(s)]
  {
  }

  /** The result of the `select('status')` query. */
  datatype QueryResult = Rows(statuses: seq<string>) | QueryError(error: string)

  /** `getCampaignStats`'s `{ data, error }` pair. */
  datatype StatsResponse = StatsResponse(data: Option<Stats>, error: Option<string>)

  /** `getCampaignStats` after the query: a query error is passed through
      with no statistics; otherwise the statistics of the returned rows. */
  function CampaignStats(q: QueryResult): (r: StatsResponse)
    ensures q.QueryError? ==> r == StatsResponse(None, Some(q.error))
    ensures q.Rows? ==> r.error.None? && r.data.Some? && r.data.value.total == |q.statuses|
    ensures q.Rows? ==> r.data.value == StatsOf(q.statuses)
  {
    match q
    case QueryError(e) => StatsResponse(None, Some(e))
    case Rows(statuses) => StatsResponse(Some(StatsOf(statuses)), None)
  }
}
