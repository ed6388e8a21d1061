/**
 * The client side of the handshake: the HELLO it sends, and how it reads the
 * server's one answer into either the selected capabilities or a fatal
 * handshake failure.
 */
module ClientHandshake {
  import opened Wrappers
  import opened Strings
  import opened VersionRanges
  import opened Payloads
  import opened MessageTypes
  import opened HandshakeErrors
  import ProtocolConstants
  import Caps = ProtocolCapabilities
  import Server = ServerHandshake

  /** The client's fixed policy: its epoch range, its capability ranges and the names it requires. */
  datatype ClientHandshakeHandler = ClientHandshakeHandler(
    supportedTransportEpochRange: CapabilityVersionRange,
    supportedCapabilities: map<string, CapabilityVersionRange>,
    requiredCapabilities: set<string>)

  /** The constructor refuses an invalid epoch range with an IllegalArgumentException. */
  function NewHandler(epochRange: CapabilityVersionRange, supported: map<string, CapabilityVersionRange>, required: set<string>)
    : (r: Result<ClientHandshakeHandler, string>)
    ensures r.Ok? <==> Valid(epochRange)
    ensures r.Ok? ==> r.value.supportedTransportEpochRange == epochRange
                      && r.value.supportedCapabilities == supported && r.value.requiredCapabilities == required
    ensures r.Err? ==> r.error == "supportedTransportEpochRange must be valid"
  {
    if !Valid(epochRange) then Err("supportedTransportEpochRange must be valid")
    else Ok(ClientHandshakeHandler(epochRange, supported, required))
  }

  /** The handler the client runs with, built from its policy. */
  lemma ClientPolicyMakesAHandler()
    ensures NewHandler(ProtocolConstants.ClientSupportedTransportEpochRange,
                       Caps.ClientSupportedCapabilities, Caps.ClientRequiredCapabilities).Ok?
  {
    ProtocolConstants.ClientEpochRangeIsExactlyCurrent();
  }

  /** createHelloPayload; the terminal's colour level is a parameter. */
  function CreateHelloPayload(h: ClientHandshakeHandler, colorLevel: Ansi.ColorLevel): (p: Payload)
    ensures p.Hello? && p.transportEpochRange == Some(h.supportedTransportEpochRange) && p.colorLevel == Some(colorLevel)
    ensures p.capabilities.Some? && p.capabilities.value.Keys == h.supportedCapabilities.Keys
    ensures forall n :: n in h.supportedCapabilities ==> p.capabilities.value[n] == Some(h.supportedCapabilities[n])
    ensures p.requiredCapabilities.Some? && None !in p.requiredCapabilities.value
    ensures Server.RequiredNames(p.requiredCapabilities.value) == h.requiredCapabilities
  {
    Server.RequiredNamesOfNames(h.requiredCapabilities);
    Hello(
      Some(h.supportedTransportEpochRange),
      Some(colorLevel),
      Some(map n | n in h.supportedCapabilities :: Some(h.supportedCapabilities[n])),
      Some(set n | n in h.requiredCapabilities :: Some(n)))
  }

  // ---------------------------------------------------------------------------
  // Reading a REJECT
  // ---------------------------------------------------------------------------

  const MissingReason: string := "<missing>"

  /** The reason as handleReject reads it: "<missing>" for an absent or blank one. */
  function ReasonOf(reason: Option<string>): (r: string)
    ensures reason.Some? && !IsBlank(reason.value) ==> r == reason.value
    ensures (reason.None? || IsBlank(reason.value)) ==> r == MissingReason
  {
    if reason.None? || IsBlank(reason.value) then MissingReason else reason.value
  }

  /** handleReject: the failure a REJECT is turned into. */
  function RejectFatal(reject: Payload): HandshakeFatal
    requires reject.Reject?
  {
    var reason := ReasonOf(reject.reason);
    var message := reject.message.GetOr("");
    if reason == UnsupportedTransportEpoch then
      if reject.expectedTransportEpoch.None? then UnknownRejectReason(reason, message)
      else ProtocolMismatch(message, reject.expectedTransportEpoch.value, ProtocolConstants.TransportEpoch)
    else if reason == Payloads.MissingRequiredCapabilities then
      if reject.missingRequiredCapabilities.None? || reject.missingRequiredCapabilities.value == {} then UnknownRejectReason(reason, message)
      else HandshakeErrors.MissingRequiredCapabilities(message, reject.missingRequiredCapabilities.value)
    else UnknownRejectReason(reason, message)
  }

  /** What each REJECT becomes: an epoch mismatch exactly for the epoch reason with an expected
    * epoch, a capability mismatch exactly for the capabilities reason with names, and an
    * unknown reason otherwise; the message becomes the failure's text, "" when absent. */
  lemma RejectFatalClassification(reject: Payload)
    requires reject.Reject?
    ensures RejectFatal(reject).ProtocolMismatch? <==>
      reject.reason == Some(UnsupportedTransportEpoch) && reject.expectedTransportEpoch.Some?
    ensures RejectFatal(reject).MissingRequiredCapabilities? <==>
      reject.reason == Some(Payloads.MissingRequiredCapabilities)
      && reject.missingRequiredCapabilities.Some? && reject.missingRequiredCapabilities.value != {}
    ensures RejectFatal(reject).ProtocolMismatch? ==>
      RejectFatal(reject) == ProtocolMismatch(reject.message.GetOr(""), reject.expectedTransportEpoch.value, ProtocolConstants.TransportEpoch)
    ensures RejectFatal(reject).MissingRequiredCapabilities? ==>
      RejectFatal(reject).missingRequiredCapabilities == reject.missingRequiredCapabilities.value
    ensures RejectFatal(reject).UnknownRejectReason? ==>
      RejectFatal(reject) == UnknownRejectReason(ReasonOf(reject.reason), reject.message.GetOr(""))
    ensures RejectFatal(reject).UnknownRejectReason? || RejectFatal(reject).ProtocolMismatch?
            || RejectFatal(reject).MissingRequiredCapabilities?
  {
    assert !IsWhitespace(UnsupportedTransportEpoch[0]) && !IsBlank(UnsupportedTransportEpoch);
    assert !IsWhitespace(Payloads.MissingRequiredCapabilities[0]) && !IsBlank(Payloads.MissingRequiredCapabilities);
    assert MissingReason[0] != UnsupportedTransportEpoch[0] && MissingReason[0] != Payloads.MissingRequiredCapabilities[0];
  }

  // ---------------------------------------------------------------------------
  // Checking the selections of a WELCOME
  // ---------------------------------------------------------------------------

  const InvalidEntryText: string := "Selected capabilities contain invalid entry"

  function UnsupportedVersionText(version: int, name: string): string {
    "Server selected unsupported version " + IntToString(version) + " for capability '" + name + "'"
  }

  /** A selection with no version, or a version below 1. */
  predicate InvalidEntry(v: Option<int>) {
    v.None? || v.value < 1
  }

  /** A well-formed selection of a capability the client knows, outside the client's range. */
  predicate UnsupportedEntry(h: ClientHandshakeHandler, name: string, v: Option<int>) {
    !InvalidEntry(v) && name in h.supportedCapabilities && !Contains(h.supportedCapabilities[name], v.value)
  }

  predicate BadEntry(h: ClientHandshakeHandler, selected: map<string, Option<int>>, name: string) {
    name in selected && (InvalidEntry(selected[name]) || UnsupportedEntry(h, name, selected[name]))
  }

  /** The text a bad entry is reported with. */
  function EntryError(v: Option<int>, name: string): string {
    if InvalidEntry(v) then InvalidEntryText else UnsupportedVersionText(v.value, name)
  }

  datatype Validation = Accepted | InvalidSelection(message: string) | MissingRequired(missing: set<string>)

  /** validateSelectedCapabilities: some bad entry is reported (which one follows the map's
    * iteration order); with none, the required names left unselected are; otherwise the
    * selections are accepted. */
  ghost predicate ValidationOf(h: ClientHandshakeHandler, selected: map<string, Option<int>>, v: Validation) {
    if exists n :: BadEntry(h, selected, n) then
      exists n :: BadEntry(h, selected, n) && v == InvalidSelection(EntryError(selected[n], n))
    else if h.requiredCapabilities - selected.Keys != {} then v == MissingRequired(h.requiredCapabilities - selected.Keys)
    else v == Accepted
  }

  method ValidateSelectedCapabilities(h: ClientHandshakeHandler, selected: map<string, Option<int>>) returns (v: Validation)
    ensures ValidationOf(h, selected, v)
  {
    var error := FindBadEntry(h, selected);
    if error.Some? {
      return InvalidSelection(error.value);
    }
    var missing := UnselectedRequired(h, selected);
    if missing != {} {
      return MissingRequired(missing);
    }
    return Accepted;
  }

  /** The first loop: the text of the first bad entry met, if any. */
  method FindBadEntry(h: ClientHandshakeHandler, selected: map<string, Option<int>>) returns (error: Option<string>)
    ensures error.None? <==> forall n :: !BadEntry(h, selected, n)
    ensures error.Some? ==> exists n :: BadEntry(h, selected, n) && error.value == EntryError(selected[n], n)
  {
    var remaining := selected.Keys;
    while remaining != {}
      invariant remaining <= selected.Keys
      invariant forall n :: n in selected.Keys - remaining ==> !BadEntry(h, selected, n)
      decreases |remaining|
    {
      ghost var w := Choose(remaining);
      var name :| name in remaining;
      var version := selected[name];
      if version.None? || version.value < 1 {
        assert BadEntry(h, selected, name);
        return Some(InvalidEntryText);
      }
      if name in h.supportedCapabilities {
        var included := Includes(h.supportedCapabilities[name], version.value);
        if !included {
          assert BadEntry(h, selected, name);
          return Some(UnsupportedVersionText(version.value, name));
        }
      }
      remaining := remaining - {name};
    }
    forall n ensures !BadEntry(h, selected, n) {
      if n in selected {
        assert n in selected.Keys - remaining;
      }
    }
    return None;
  }

  /** The second loop: the required names with no selection. */
  method UnselectedRequired(h: ClientHandshakeHandler, selected: map<string, Option<int>>) returns (missing: set<string>)
    ensures missing == h.requiredCapabilities - selected.Keys
  {
    missing := {};
    var required := h.requiredCapabilities;
    while required != {}
      invariant required <= h.requiredCapabilities
      invariant forall x :: x in missing <==> x in h.requiredCapabilities && x !in required && x !in selected
      decreases |required|
    {
      ghost var w := Choose(required);
      var name :| name in required;
      if name !in selected {
        missing := missing + {name};
      }
      required := required - {name};
    }
  }

  /** The versions of selections that all carry one. */
  function Versions(selected: map<string, Option<int>>): (r: map<string, int>)
    ensures r.Keys <= selected.Keys
    ensures forall n :: n in selected && selected[n].Some? ==> n in r && r[n] == selected[n].value
  {
    map n | n in selected && selected[n].Some? :: selected[n].value
  }

  /** An accepted selection names every required capability, at a version of at least 1 that the
    * client supports whenever it knows the capability. */
  lemma AcceptedSelectionsAreSupported(h: ClientHandshakeHandler, selected: map<string, Option<int>>)
    requires ValidationOf(h, selected, Accepted)
    ensures Versions(selected).Keys == selected.Keys
    ensures h.requiredCapabilities <= selected.Keys
    ensures forall n :: n in selected ==> Versions(selected)[n] >= 1
    ensures forall n :: n in selected && n in h.supportedCapabilities ==>
              Contains(h.supportedCapabilities[n], Versions(selected)[n])
  {
    assert forall n :: !BadEntry(h, selected, n);
    assert forall n :: n in selected ==> selected[n].Some? && selected[n].value >= 1;
    assert forall n :: n in h.requiredCapabilities ==> n in selected by {
      forall n | n in h.requiredCapabilities ensures n in selected {
        assert n !in h.requiredCapabilities - selected.Keys;
      }
    }
  }

  /** Without a bad entry the outcome is determined, and names exactly the unselected required names. */
  lemma ValidationWithoutBadEntries(h: ClientHandshakeHandler, selected: map<string, Option<int>>, v: Validation)
    requires ValidationOf(h, selected, v)
    requires forall n :: n in selected ==> selected[n].Some? && selected[n].value >= 1
    requires forall n :: n in selected && n in h.supportedCapabilities ==> Contains(h.supportedCapabilities[n], selected[n].value)
    ensures v == (if h.requiredCapabilities <= selected.Keys then Accepted
                  else MissingRequired(h.requiredCapabilities - selected.Keys))
  {
    assert forall n :: !BadEntry(h, selected, n);
    if !(h.requiredCapabilities <= selected.Keys) {
      var x :| x in h.requiredCapabilities && x !in selected.Keys;
      assert x in h.requiredCapabilities - selected.Keys;
    }
  }

  /** A bad entry is always reported as one, whichever the map yields first. */
  lemma BadEntryIsReported(h: ClientHandshakeHandler, selected: map<string, Option<int>>, v: Validation, name: string)
    requires ValidationOf(h, selected, v)
    requires BadEntry(h, selected, name)
    ensures v.InvalidSelection?
    ensures v.message == InvalidEntryText
            || exists n :: n in selected && UnsupportedEntry(h, n, selected[n])
                           && v.message == UnsupportedVersionText(selected[n].value, n)
  {
  }

  // ---------------------------------------------------------------------------
  // Reading the answer
  // ---------------------------------------------------------------------------

  /** The failure or selections a validation outcome turns into. */
  function ValidationResult(v: Validation, selected: map<string, Option<int>>): (r: Result<map<string, int>, HandshakeFatal>)
    ensures r.Ok? <==> v == Accepted
    ensures v.InvalidSelection? ==> r == Err(InvalidHandshakeResponse(v.message))
    ensures v.MissingRequired? ==> r.Err? && r.error.MissingRequiredCapabilities? && r.error.missingRequiredCapabilities == v.missing
  {
    match v
    case Accepted => Ok(Versions(selected))
    case InvalidSelection(message) => Err(InvalidHandshakeResponse(message))
    case MissingRequired(missing) => Err(HandshakeErrors.MissingRequiredCapabilities("Missing required capabilities", missing))
  }

  /** handleHandshakeResponse, step by step: the request id, a REJECT, the type, the epoch, the
    * presence of selections, and their validation. */
  ghost predicate HandshakeOutcome(h: ClientHandshakeHandler, expectedRequestId: string, response: Message,
                                   r: Result<map<string, int>, HandshakeFatal>) {
    if response.requestId != Some(expectedRequestId) then r == Err(InvalidHandshakeResponse("requestId mismatch"))
    else if response.msgType == REJECT && response.payload.Reject? then r == Err(RejectFatal(response.payload))
    else if response.msgType != WELCOME || !response.payload.Welcome? then
      r == Err(InvalidHandshakeResponse("unexpected response type: " + response.msgType.id))
    else
      var welcome := response.payload;
      if !Contains(h.supportedTransportEpochRange, welcome.transportEpoch) then
        r == Err(ProtocolMismatch("Unsupported transport epoch: " + IntToString(welcome.transportEpoch),
                                  welcome.transportEpoch, ProtocolConstants.TransportEpoch))
      else if welcome.selectedCapabilities.None? then r == Err(InvalidHandshakeResponse("missing selected capabilities"))
      else exists v :: ValidationOf(h, welcome.selectedCapabilities.value, v)
                       && r == ValidationResult(v, welcome.selectedCapabilities.value)
  }

  method HandleHandshakeResponse(h: ClientHandshakeHandler, expectedRequestId: string, response: Message)
    returns (r: Result<map<string, int>, HandshakeFatal>)
    ensures HandshakeOutcome(h, expectedRequestId, response, r)
  {
    if response.requestId != Some(expectedRequestId) {
      return Err(InvalidHandshakeResponse("requestId mismatch"));
    }
    if response.msgType == REJECT && response.payload.Reject? {
      return Err(RejectFatal(response.payload));
    }
    if response.msgType != WELCOME || !response.payload.Welcome? {
      return Err(InvalidHandshakeResponse("unexpected response type: " + response.msgType.id));
    }
    var welcome := response.payload;
    var included := Includes(h.supportedTransportEpochRange, welcome.transportEpoch);
    if !included {
      return Err(ProtocolMismatch("Unsupported transport epoch: " + IntToString(welcome.transportEpoch),
                                  welcome.transportEpoch, ProtocolConstants.TransportEpoch));
    }
    if welcome.selectedCapabilities.None? {
      return Err(InvalidHandshakeResponse("missing selected capabilities"));
    }
    var v := ValidateSelectedCapabilities(h, welcome.selectedCapabilities.value);
    r := ValidationResult(v, welcome.selectedCapabilities.value);
  }

  /** A success hands back one version per selected name, each one the client supports. */
  lemma SuccessIsSupported(h: ClientHandshakeHandler, expectedRequestId: string, response: Message, r: Result<map<string, int>, HandshakeFatal>)
    requires HandshakeOutcome(h, expectedRequestId, response, r)
    requires r.Ok?
    ensures response.requestId == Some(expectedRequestId) && response.msgType == WELCOME && response.payload.Welcome?
    ensures Contains(h.supportedTransportEpochRange, response.payload.transportEpoch)
    ensures h.requiredCapabilities <= r.value.Keys
    ensures forall n :: n in r.value && n in h.supportedCapabilities ==> Contains(h.supportedCapabilities[n], r.value[n])
  {
    var selected := response.payload.selectedCapabilities.value;
    var v :| ValidationOf(h, selected, v) && r == ValidationResult(v, selected);
    AcceptedSelectionsAreSupported(h, selected);
  }

  // ---------------------------------------------------------------------------
  // Both sides together
  // ---------------------------------------------------------------------------

  /** How the client reads a REJECT the server sends for a failed check. */
  function ReadBack(c: Server.Check, missing: set<string>): HandshakeFatal {
    if c == Server.RequiredSatisfied
    then HandshakeErrors.MissingRequiredCapabilities(Server.RejectMessage(c), missing)
    else if c == Server.SupportsEpoch
    then ProtocolMismatch(Server.RejectMessage(c), ProtocolConstants.TransportEpoch, ProtocolConstants.TransportEpoch)
    else UnknownRejectReason(Server.RejectReason(c), Server.RejectMessage(c))
  }

  lemma {:induction false} RejectionReadBack(c: Server.Check, missing: set<string>)
    requires c == Server.RequiredSatisfied ==> missing != {}
    ensures RejectFatal(Server.ResponsePayload(Server.Rejection(c, missing))) == ReadBack(c, missing)
  {
    RejectReasonFacts(c);
  }

  /** Every reason the server refuses with is a non-blank code, and only the epoch and the
    * capability checks use the two codes the client singles out. */
  lemma RejectReasonFacts(c: Server.Check)
    ensures ReasonOf(Some(Server.RejectReason(c))) == Server.RejectReason(c)
    ensures Server.RejectReason(c) == UnsupportedTransportEpoch <==> c == Server.SupportsEpoch
    ensures Server.RejectReason(c) == Payloads.MissingRequiredCapabilities <==> c == Server.RequiredSatisfied
  {
    var reason := Server.RejectReason(c);
    assert !IsWhitespace(reason[0]);
  }

  /** The client reads each REJECT the server sends as meant: the unsupported epoch as an epoch
    * mismatch against the server's epoch, unmet requirements as a capability mismatch naming
    * the missing names, and every other refusal as an unknown reason carrying its text. */
  lemma ServerRejectionsAreUnderstood(m: Message, server: map<string, CapabilityVersionRange>)
    requires Server.Decide(m, server).Rejection?
    ensures RejectFatal(Server.Response(m, server).payload)
            == ReadBack(Server.Decide(m, server).failed, Server.Decide(m, server).missing)
  {
    var verdict := Server.Decide(m, server);
    if verdict.failed == Server.RequiredSatisfied {
      Server.MissingIsRequiredMinusSelected(m, server);
    }
    RejectionReadBack(verdict.failed, verdict.missing);
  }

  /** The handler built from the client's policy. */
  const ClientPolicy: ClientHandshakeHandler :=
    ClientHandshakeHandler(ProtocolConstants.ClientSupportedTransportEpochRange,
                           Caps.ClientSupportedCapabilities, Caps.ClientRequiredCapabilities)

  /** The policy's HELLO is the one the server welcomes with every capability. */
  lemma ClientHelloIsBaseline(colorLevel: Ansi.ColorLevel)
    ensures CreateHelloPayload(ClientPolicy, colorLevel) == Server.BaselineHello(colorLevel)
  {
  }

  /** The policy accepts all six capabilities at version 1. */
  lemma BaselineSelectionsAccepted(v: Validation)
    requires ValidationOf(ClientPolicy, Server.AsWelcomeSelections(map n | n in Caps.AllNames :: Caps.V1), v)
    ensures ValidationResult(v, Server.AsWelcomeSelections(map n | n in Caps.AllNames :: Caps.V1))
            == Ok(map n | n in Caps.AllNames :: Caps.V1)
  {
    Caps.PoliciesCoverAllNames();
    Caps.PolicyRangesAreV1();
    Caps.RequiredAreSupported();
    var all := map n | n in Caps.AllNames :: Caps.V1;
    var selected := Server.AsWelcomeSelections(all);
    ValidationWithoutBadEntries(ClientPolicy, selected, v);
    assert Versions(selected) == all;
  }

  /** A client and server on their own policies complete the handshake: the server welcomes the
    * client's HELLO and the client accepts all six capabilities at version 1. */
  lemma PoliciesCompleteTheHandshake(requestId: string, colorLevel: Ansi.ColorLevel, r: Result<map<string, int>, HandshakeFatal>)
    requires var hello := Message(HELLO, Some(requestId), CreateHelloPayload(ClientPolicy, colorLevel));
             HandshakeOutcome(ClientPolicy, requestId, Server.Response(hello, Caps.ServerSupportedCapabilities), r)
    ensures NewHandler(ProtocolConstants.ClientSupportedTransportEpochRange,
                       Caps.ClientSupportedCapabilities, Caps.ClientRequiredCapabilities) == Ok(ClientPolicy)
    ensures r == Ok(map n | n in Caps.AllNames :: Caps.V1)
  {
    ClientPolicyMakesAHandler();
    ClientHelloIsBaseline(colorLevel);
    Server.BaselineHandshakeIsWelcomed(requestId, colorLevel);
    ProtocolConstants.ClientEpochRangeIsExactlyCurrent();
    var hello := Message(HELLO, Some(requestId), CreateHelloPayload(ClientPolicy, colorLevel));
    var response := Server.Response(hello, Caps.ServerSupportedCapabilities);
    var selected := Server.AsWelcomeSelections(map n | n in Caps.AllNames :: Caps.V1);
    assert response.payload == Welcome(ProtocolConstants.TransportEpoch, Some(selected));
    var v :| ValidationOf(ClientPolicy, selected, v) && r == ValidationResult(v, selected);
    BaselineSelectionsAccepted(v);
  }
}
