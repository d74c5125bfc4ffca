/** The shared flow state: status enumerations, and the fields of the root state the flows read or write. */
module State {
  import opened Common

  datatype SignupStatus =
    | Qualified | LinkSent | CheckoutOpened | CheckoutCompleted | AccountCreated
    | Provisioned | Activated | Expired | Failed

  datatype OnboardingStep =
    | NotStarted | AccountSetup | PhoneAssigned | AssistantConfigured | TestCallCompleted | SetupCompleted | Stalled

  datatype AlertSeverity = Info | Warning | Critical

  /** What a caller passes as a severity: a member of the enumeration, or just some text. */
  datatype SeverityArg = Severity(severity: AlertSeverity) | PlainText(text: string)

  /** The flow's own copy of the signup. */
  datatype FlowSignup = FlowSignup(id: Option<string>, link: Option<string>, status: SignupStatus)

  datatype FlowState = FlowState(
    signup: FlowSignup,
    stage1Done: bool,
    stage2Done: bool,
    step: OnboardingStep,
    pauseNoted: bool,
    alerts: seq<AlertSeverity>)

  const FRESH := FlowState(FlowSignup(None, None, Qualified), false, false, NotStarted, false, [])

  /** Adding an alert reads the value of its severity, which a plain text does not have. */
  function AddAlert(alerts: seq<AlertSeverity>, severity: SeverityArg): Result<seq<AlertSeverity>, ()> {
    match severity
    case Severity(s) => Ok(alerts + [s])
    case PlainText(_) => Err(())
  }
}
