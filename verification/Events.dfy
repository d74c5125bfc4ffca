/** The nine event types and their wire values. */
module Events {
  import opened Common

  datatype EventKind =
    | QualifiedLead
    | PaymentFailure
    | SignupFailure
    | ProvisioningFailure
    | OnboardingStalled
    | AbuseRiskSpike
    | DailyDigest
    | BatchedInsights
    | DeployCompleted
  {
    function Value(): string {
      match this
      case QualifiedLead => "qualified_lead_wants_trial_or_paid"
      case PaymentFailure => "payment_failure"
      case SignupFailure => "signup_or_account_creation_failure"
      case ProvisioningFailure => "provisioning_failure"
      case OnboardingStalled => "onboarding_stalled"
      case AbuseRiskSpike => "abuse_or_risk_spike"
      case DailyDigest => "daily_founder_digest"
      case BatchedInsights => "batched_product_insight_job"
      case DeployCompleted => "deploy_completed"
    }
  }

  /** The event type an inbound event names; any other value is refused. */
  function Parse(value: string): Option<EventKind> {
    if value == "qualified_lead_wants_trial_or_paid" then Some(QualifiedLead)
    else if value == "payment_failure" then Some(PaymentFailure)
    else if value == "signup_or_account_creation_failure" then Some(SignupFailure)
    else if value == "provisioning_failure" then Some(ProvisioningFailure)
    else if value == "onboarding_stalled" then Some(OnboardingStalled)
    else if value == "abuse_or_risk_spike" then Some(AbuseRiskSpike)
    else if value == "daily_founder_digest" then Some(DailyDigest)
    else if value == "batched_product_insight_job" then Some(BatchedInsights)
    else if value == "deploy_completed" then Some(DeployCompleted)
    else None
  }

  lemma {:induction false} ParseOwnValue(kind: EventKind)
    ensures Parse(kind.Value()) == Some(kind)
  {
    match kind
    case SignupFailure => assert |kind.Value()| == 34;
    case _ =>
  }

  lemma ParsedValue(value: string, kind: EventKind)
    requires Parse(value) == Some(kind)
    ensures value == kind.Value()
  {
    match kind
    case QualifiedLead => assert value == "qualified_lead_wants_trial_or_paid";
    case PaymentFailure => assert value == "payment_failure";
    case SignupFailure => assert value == "signup_or_account_creation_failure";
    case ProvisioningFailure => assert value == "provisioning_failure";
    case OnboardingStalled => assert value == "onboarding_stalled";
    case AbuseRiskSpike => assert value == "abuse_or_risk_spike";
    case DailyDigest => assert value == "daily_founder_digest";
    case BatchedInsights => assert value == "batched_product_insight_job";
    case DeployCompleted => assert value == "deploy_completed";
  }

  /** A value names an event type if and only if it is that type's wire value. */
  lemma ParseExactly(value: string, kind: EventKind)
    ensures Parse(value) == Some(kind) <==> value == kind.Value()
  {
    hide Parse, EventKind.Value;
    ParseOwnValue(kind);
    if Parse(value) == Some(kind) {
      ParsedValue(value, kind);
    }
  }

  /** No two event types share a wire value. */
  lemma ValueInjective(a: EventKind, b: EventKind)
    requires a.Value() == b.Value()
    ensures a == b
  {
    hide Parse, EventKind.Value;
    ParseOwnValue(a);
    ParseOwnValue(b);
  }

  lemma {:induction false} LaterValueHasNoColon(kind: EventKind)
    requires !kind.QualifiedLead? && !kind.PaymentFailure? && !kind.SignupFailure? && !kind.ProvisioningFailure?
    ensures ':' !in kind.Value()
  {
    match kind
    case OnboardingStalled => assert ':' !in "onboarding_stalled";
    case AbuseRiskSpike => assert ':' !in "abuse_or_risk_spike";
    case DailyDigest => assert ':' !in "daily_founder_digest";
    case BatchedInsights => assert ':' !in "batched_product_insight_job";
    case DeployCompleted => assert ':' !in "deploy_completed";
  }

  lemma {:induction false} ValueHasNoColon(kind: EventKind)
    ensures ':' !in kind.Value()
  {
    match kind
    case QualifiedLead => assert ':' !in "qualified_lead_wants_trial_or_paid";
    case PaymentFailure => assert ':' !in "payment_failure";
    case SignupFailure => assert ':' !in "signup_or_account_creation_failure";
    case ProvisioningFailure => assert ':' !in "provisioning_failure";
    case _ => LaterValueHasNoColon(kind);
  }
}
