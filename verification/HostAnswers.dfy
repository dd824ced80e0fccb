/**
 The one meaning each answer of a Host has: to a capability question, and to an
 attach.
 */
module HostAnswers {
  import opened Common
  import opened Policy
  import Delivery

  /** Gate responses are asked about before references, and those before principals. */
  predicate AskedFirst(j: Delivery.Kind, k: Delivery.Kind) {
    (j.GateResponse? && !k.GateResponse?) || (j.Reference? && k.Principal?)
  }

  /** The capabilities a placement demands, in the order it asks. */
  function DemandsOf(gates: bool, references: bool, principals: bool): seq<Delivery.Kind> {
    (if gates then [Delivery.GateResponse] else [])
    + (if references then [Delivery.Reference] else [])
    + (if principals then [Delivery.Principal] else [])
  }

  /** Each capability is demanded exactly when it is called for, once and in that order. */
  lemma {:induction false} DemandsMeaning(gates: bool, references: bool, principals: bool)
    ensures var r := DemandsOf(gates, references, principals);
      && (Delivery.GateResponse in r <==> gates) && (Delivery.Reference in r <==> references)
      && (Delivery.Principal in r <==> principals)
      && forall i, j :: 0 <= i < j < |r| ==> AskedFirst(r[i], r[j])
  {
    var r := DemandsOf(gates, references, principals);
    var gate := if gates then [Delivery.GateResponse] else [];
    var reference := if references then [Delivery.Reference] else [];
    var principal := if principals then [Delivery.Principal] else [];
    assert r == gate + reference + principal;
    assert gates ==> r[0] == Delivery.GateResponse;
    assert references ==> r[|gate|] == Delivery.Reference;
    assert principals ==> r[|gate + reference|] == Delivery.Principal;
  }

  datatype Capability = Capable | Incapable | Unaddressable | Unreachable | Abort

  /** What a capability question came to: an answer, or an error that may be of two known kinds. */
  datatype CapabilityReply = Answered(capable: bool) | AskError(unaddressable: bool, unreachable: bool)

  function ClassifyCapability(r: CapabilityReply): (c: Capability)
    ensures c.Capable? <==> r == Answered(true)
    ensures c.Incapable? <==> r == Answered(false)
    ensures c.Unaddressable? <==> r.AskError? && r.unaddressable
    ensures c.Unreachable? <==> r.AskError? && !r.unaddressable && r.unreachable
    ensures c.Abort? <==> r.AskError? && !r.unaddressable && !r.unreachable
  {
    match r
    case Answered(capable) => if capable then Capable else Incapable
    case AskError(unaddressable, unreachable) =>
      if unaddressable then Unaddressable else if unreachable then Unreachable else Abort
  }

  /** A refusal's code, and the other holder's epoch that comes with a mismatch. */
  datatype Refusal = Refusal(epochMismatch: bool, currentEpoch: nat)

  datatype AttachReply =
    | Attached(o: Observation)
    | AttachError(refusal: Option<Refusal>, unsupported: bool, unaddressable: bool, unreachable: bool, failed: bool)

  datatype Verdict = Accepted | Stale | Refused | Unsupported | NoAddress | NoContact | HostFailed | Ambiguous

  /** The error is no refusal, and of none of the kinds that are looked for before this one. */
  predicate Beyond(r: AttachReply, unsupported: bool, unaddressable: bool, unreachable: bool) {
    && r.AttachError? && r.refusal.None?
    && (unsupported ==> !r.unsupported) && (unaddressable ==> !r.unaddressable) && (unreachable ==> !r.unreachable)
  }

  /**
   An error that is of several kinds has the first of them: a refusal, a method the
   Host does not offer, no address, no contact, a failure of the Host's own. One of
   no known kind is ambiguous: the Host may have acted on it.
   */
  function AttachAnswer(r: AttachReply): (v: Verdict)
    ensures v.Accepted? <==> r.Attached?
    ensures v.Stale? <==> r.AttachError? && r.refusal.Some? && r.refusal.value.epochMismatch
    ensures v.Refused? <==> r.AttachError? && r.refusal.Some? && !r.refusal.value.epochMismatch
    ensures v.Unsupported? <==> Beyond(r, false, false, false) && r.unsupported
    ensures v.NoAddress? <==> Beyond(r, true, false, false) && r.unaddressable
    ensures v.NoContact? <==> Beyond(r, true, true, false) && r.unreachable
    ensures v.HostFailed? <==> Beyond(r, true, true, true) && r.failed
    ensures v.Ambiguous? <==> Beyond(r, true, true, true) && !r.failed
  {
    match r
    case Attached(_) => Accepted
    case AttachError(refusal, unsupported, unaddressable, unreachable, failed) =>
      if refusal.Some? then (if refusal.value.epochMismatch then Stale else Refused)
      else if unsupported then Unsupported
      else if unaddressable then NoAddress
      else if unreachable then NoContact
      else if failed then HostFailed
      else Ambiguous
  }
}
