/** Classification of a failed broker call into the CLI's stable error codes. */
module Errors {
  import opened Wrappers
  import opened Transport

  datatype Code = Usage | Policy | Auth | RateLimited | BrokerRejected | Network | Unconfirmed | Internal

  // gRPC status codes; OtherCode stands for the ones Classify does not single out.
  datatype GrpcCode = Canceled | InvalidArgument | DeadlineExceeded | NotFound | PermissionDenied
                    | ResourceExhausted | FailedPrecondition | Unavailable | Unauthenticated | OtherCode

  datatype Status = Status(code: GrpcCode, message: string)

  // status is None for an error that carries no gRPC status, such as a raw context error.
  datatype CallError = CallError(status: Option<Status>, text: string)

  datatype CallContext = CallContext(phase: Phase, trackingID: string, retryAfter: int, apiMessage: string,
                                    mutation: bool)

  datatype CLIError = CLIError(code: Code, grpcCode: Option<GrpcCode>, apiCode: string, message: string,
                               retryable: bool, retryAfter: int, phase: Phase, trackingID: string)

  function ExitCode(c: Code): int {
    match c
    case Usage => 2
    case Policy => 2
    case Auth => 3
    case RateLimited => 4
    case BrokerRejected => 5
    case Network => 6
    case Unconfirmed => 7
    case Internal => 1
  }

  // The broker's numeric error code: the status message when it is digits only.
  function ApiCode(message: string): string {
    if message != "" && forall i :: 0 <= i < |message| ==> '0' <= message[i] <= '9' then message else ""
  }

  const DUPLICATE_WITHOUT_REPORT := "30057"
  const INVALID_TOKEN := "40003"

  function Classify(err: CallError, cc: CallContext): CLIError {
    var ok := err.status.Some?;
    var base := CLIError(Internal, None, "", err.text, false, 0, cc.phase, cc.trackingID);
    var named := if ok then base.(grpcCode := Some(err.status.value.code),
                                  apiCode := ApiCode(err.status.value.message),
                                  message := err.status.value.message) else base;
    var e := if cc.apiMessage != "" then named.(message := cc.apiMessage) else named;
    if cc.mutation && cc.phase.SentUnconfirmed? then e.(code := Unconfirmed)
    else if !ok then e
    else if cc.mutation && e.apiCode == DUPLICATE_WITHOUT_REPORT then e.(code := Unconfirmed)
    else if e.apiCode == INVALID_TOKEN then e.(code := Auth)
    else
      match err.status.value.code
      case Unauthenticated => e.(code := Auth)
      case PermissionDenied => e.(code := Auth)
      case ResourceExhausted => e.(code := RateLimited, retryable := true, retryAfter := cc.retryAfter)
      case InvalidArgument => e.(code := BrokerRejected)
      case FailedPrecondition => e.(code := BrokerRejected)
      case NotFound => e.(code := BrokerRejected)
      case Unavailable => e.(code := Network, retryable := true)
      case DeadlineExceeded => e.(code := Network, retryable := true)
      case Canceled => e.(code := Network, retryable := true)
      case OtherCode => e
  }

  // The status message is the broker's duplicate-without-report code.
  predicate DuplicateWithoutReport(err: CallError) {
    err.status.Some? && err.status.value.message == DUPLICATE_WITHOUT_REPORT
  }

  // A failure is unknown-state exactly for a mutation that reached the wire without a
  // definitive answer, whatever the error's shape, or one the broker recognised but
  // cannot report; that is also exactly exit code 7. It is never marked retryable.
  lemma UnconfirmedExactly(err: CallError, cc: CallContext)
    ensures Classify(err, cc).code.Unconfirmed? <==>
              cc.mutation && (cc.phase.SentUnconfirmed? || DuplicateWithoutReport(err))
    ensures ExitCode(Classify(err, cc).code) == 7 <==>
              cc.mutation && (cc.phase.SentUnconfirmed? || DuplicateWithoutReport(err))
    ensures Classify(err, cc).code.Unconfirmed? ==> !Classify(err, cc).retryable
    ensures Classify(err, cc).retryable <==> Classify(err, cc).code.RateLimited? || Classify(err, cc).code.Network?
  {
    if err.status.Some? && err.status.value.message == DUPLICATE_WITHOUT_REPORT {
      assert DUPLICATE_WITHOUT_REPORT == ['3', '0', '0', '5', '7'];
    }
    assert DUPLICATE_WITHOUT_REPORT != "";
  }

  // A mutation closes the journal as rejected only when nothing was sent at all or the
  // final attempt was answered.
  lemma RejectionNeedsAnswerOrSilence(err: CallError, trace: seq<Event>, cc: CallContext)
    requires cc.mutation && cc.phase == PhaseOf(trace)
    requires !Classify(err, cc).code.Unconfirmed?
    ensures FinalConfirmed(trace) || !EverSent(trace)
  {
    UnconfirmedExactly(err, cc);
  }

  // An answered call whose status message is not one of the broker's two singled-out codes,
  // so that its gRPC code decides.
  predicate ByGrpcCode(err: CallError, cc: CallContext) {
    && err.status.Some? && err.status.value.message != "40003"
    && !(cc.mutation && (cc.phase.SentUnconfirmed? || err.status.value.message == "30057"))
  }

  // What each class means, and the exit code a caller sees for it.
  lemma ClassifiedExactly(err: CallError, cc: CallContext)
    ensures var e := Classify(err, cc);
            && (e.code.Auth? <==>
                || (ByGrpcCode(err, cc) && err.status.value.code in {Unauthenticated, PermissionDenied})
                || (err.status.Some? && err.status.value.message == "40003"
                    && !(cc.mutation && cc.phase.SentUnconfirmed?)))
            && (e.code.RateLimited? <==> ByGrpcCode(err, cc) && err.status.value.code == ResourceExhausted)
            && (e.code.BrokerRejected? <==>
                ByGrpcCode(err, cc) && err.status.value.code in {InvalidArgument, FailedPrecondition, NotFound})
            && (e.code.Network? <==>
                ByGrpcCode(err, cc) && err.status.value.code in {Unavailable, DeadlineExceeded, Canceled})
            && !e.code.Usage? && !e.code.Policy?
    ensures var e := Classify(err, cc);
            && (ExitCode(e.code) == 3 <==> e.code.Auth?) && (ExitCode(e.code) == 4 <==> e.code.RateLimited?)
            && (ExitCode(e.code) == 5 <==> e.code.BrokerRejected?) && (ExitCode(e.code) == 6 <==> e.code.Network?)
            && (ExitCode(e.code) == 7 <==> e.code.Unconfirmed?) && (ExitCode(e.code) == 1 <==> e.code.Internal?)
    ensures ExitCode(Usage) == 2 && ExitCode(Policy) == 2
  {
    assert DUPLICATE_WITHOUT_REPORT == ['3', '0', '0', '5', '7'] && INVALID_TOKEN == ['4', '0', '0', '0', '3'];
  }

  // What the caller is told beside the class: the broker's own description first, its code
  // only when that is a number, and how long to wait only when rate-limited.
  lemma ReportedAlongside(err: CallError, cc: CallContext)
    ensures var e := Classify(err, cc);
            && e.phase == cc.phase && e.trackingID == cc.trackingID
            && (cc.apiMessage != "" ==> e.message == cc.apiMessage)
            && (cc.apiMessage == "" && err.status.Some? ==> e.message == err.status.value.message)
            && (cc.apiMessage == "" && err.status.None? ==> e.message == err.text)
            && (err.status.Some? ==> e.grpcCode == Some(err.status.value.code))
            && (err.status.None? ==> e.grpcCode.None? && e.apiCode == "")
            && (e.code.RateLimited? ==> e.retryAfter == cc.retryAfter) && (!e.code.RateLimited? ==> e.retryAfter == 0)
    ensures err.status.Some? ==>
              var m := err.status.value.message;
              Classify(err, cc).apiCode == if exists i :: 0 <= i < |m| && !('0' <= m[i] <= '9') then "" else m
  {
    ClassifiedExactly(err, cc);
  }
}
