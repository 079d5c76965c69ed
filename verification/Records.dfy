/** The rows of the removal tables (core/models.py). Rows are never deleted, so
    a table is a sequence and a row's id is its position. */
module Records {
  import opened Prelude
  import Ledger

  const MINUTE := 60
  const HOUR := 60 * MINUTE
  const DAY := 24 * HOUR

  /** `isStaff` stands for the staff flag or the superuser flag: either is enough. */
  datatype Account = Account(isStaff: bool, plan: string)

  datatype Broker = Broker(id: string, isActive: bool, removalMethod: string, optOutEmail: string, hasFormConfig: bool)

  datatype ExposureStatus =
    New | Triaged | RemovalQueued | RemovalSent | Removed | Verified | Reappeared | Dismissed | Failed

  datatype Exposure = Exposure(
    user: nat, kind: string, severity: string, status: ExposureStatus, title: string, source: string,
    url: string, blindIndex: string, confidence: real, fingerprint: string, lastSeen: int)

  datatype Channel = Email | WebForm | Manual

  function ChannelText(c: Channel): string {
    match c
    case Email => "email"
    case WebForm => "web_form"
    case Manual => "manual"
  }

  datatype CampaignStatus =
    Draft | Queued | Running | Submitted | AwaitingResponse | Removed | Verified | Escalated | Failed | Cancelled

  datatype Campaign = Campaign(
    user: nat, exposure: nat, uuid: string, brokerId: string, channel: Channel, status: CampaignStatus,
    jurisdiction: string, confirmationCode: string, createdAt: int, deadlineAt: int,
    submittedAt: Option<int>, completedAt: Option<int>, evidence: seq<Ledger.Evidence>)

  datatype JobType = Monitor | SendEmail | FillWebForm | VerifyRemoval | Escalate | Deindex

  function JobTypeText(t: JobType): string {
    match t
    case Monitor => "monitor"
    case SendEmail => "send_email"
    case FillWebForm => "fill_web_form"
    case VerifyRemoval => "verify"
    case Escalate => "escalate"
    case Deindex => "deindex"
  }

  datatype JobStatus = Queued | Claimed | Running | Completed | Failed | Cancelled

  datatype Job = Job(
    user: nat, jobType: JobType, campaign: Option<nat>, watchlist: Option<nat>,
    status: JobStatus, attempts: nat, createdAt: int, result: string)

  datatype Watchlist = Watchlist(
    user: nat, name: string, active: bool, cadenceHours: int, lastRunAt: Option<int>, nextRunAt: Option<int>)

  datatype MonitorRun = MonitorRun(watchlist: nat, findingsCount: nat)

  function Truncate(s: string, n: nat): string {
    if |s| <= n then s else s[..n]
  }
}
