/** The privacy-filtered data that recordings and guides are made of. */
module Models {

  type Millis = nat
  type FrameId = nat
  type CandidateId = nat

  datatype MouseButton = Left | Right | Middle | Other
  datatype SemanticKey = Enter | Tab

  /** A click carries a position in the code; nothing here reads it. */
  datatype SemanticAction =
    | Click(button: MouseButton)
    | ScrollActivity
    | TypingActivity
    | Key(key: SemanticKey)

  datatype TimedSemanticAction = TimedSemanticAction(action: SemanticAction, atMs: Millis)

  datatype CandidateKind = ClickStep | TypingStep | ScrollStep | UiChanged
  datatype DetectReason = ClickConfirmed | TypingSettled | ScrollSettled | VisualChange

  /** A detected candidate, centred on its keyframe. */
  datatype CandidateMarker = CandidateMarker(kind: CandidateKind, reason: DetectReason, atMs: Millis, centerId: FrameId)

  datatype CandidateStep = CandidateStep(
    id: CandidateId, kind: CandidateKind, reason: DetectReason, atMs: Millis,
    keyframe: FrameId, nearby: seq<FrameId>)

  datatype GuideStep = GuideStep(
    index: nat, title: string, caption: string, kind: CandidateKind, reason: DetectReason,
    atMs: Millis, keyframe: FrameId, nearby: seq<FrameId>, source: CandidateId)

  function DefaultTitle(kind: CandidateKind): string {
    match kind
    case ClickStep => "Click"
    case TypingStep => "Enter text"
    case ScrollStep => "Scroll"
    case UiChanged => "UI changed"
  }
}
