/**
 * The server side of the handshake: the first message a client sends is
 * checked in a fixed order, and answered by exactly one REJECT naming the
 * first check that failed, or by one WELCOME carrying the negotiated
 * capabilities.
 */
module ServerHandshake {
  import opened Wrappers
  import opened VersionRanges
  import opened Payloads
  import opened MessageTypes
  import opened Endpoints
  import ProtocolConstants
  import Caps = ProtocolCapabilities

  // ---------------------------------------------------------------------------
  // Negotiation
  // ---------------------------------------------------------------------------

  /** Every declared range is present and valid. */
  predicate AllRangesValid(client: map<string, Option<CapabilityVersionRange>>) {
    forall n :: n in client ==> client[n].Some? && Valid(client[n].value)
  }

  /** The selections over the names in `keys`: each name both sides know whose ranges
    * share a version, at the highest one they share. */
  function NegotiatedOver(client: map<string, Option<CapabilityVersionRange>>, server: map<string, CapabilityVersionRange>, keys: set<string>): (selected: map<string, int>)
    ensures forall n :: n in selected ==>
              n in keys && n in client && client[n].Some? && n in server && Common(client[n].value, server[n], selected[n])
  {
    map n | n in keys && n in client && client[n].Some? && n in server
                      && HighestCommon(client[n].value, server[n]).Some?
          :: HighestCommon(client[n].value, server[n]).value
  }

  /** Taking one more name into account adds its selection, if it has one. */
  lemma NegotiatedOverStep(client: map<string, Option<CapabilityVersionRange>>, server: map<string, CapabilityVersionRange>, done: set<string>, name: string)
    requires name in client && client[name].Some?
    ensures var before := NegotiatedOver(client, server, done);
            var after := NegotiatedOver(client, server, done + {name});
            if name in server && HighestCommon(client[name].value, server[name]).Some?
            then after == before[name := HighestCommon(client[name].value, server[name]).value]
            else after == before - {name}
  {
  }

  /** The selections negotiated for every name the client declares. */
  function Negotiated(client: map<string, Option<CapabilityVersionRange>>, server: map<string, CapabilityVersionRange>): (selected: map<string, int>)
    ensures selected.Keys <= client.Keys * server.Keys
    ensures forall n :: n in selected ==>
              client[n].Some? && Contains(client[n].value, selected[n]) && Contains(server[n], selected[n])
  {
    NegotiatedOver(client, server, client.Keys)
  }

  /** A selection is either there at the highest common version, or there is none to make. */
  lemma NegotiatedMeaning(client: map<string, Option<CapabilityVersionRange>>, server: map<string, CapabilityVersionRange>, n: string)
    requires AllRangesValid(client)
    ensures n in Negotiated(client, server) ==>
      n in client && n in server && Common(client[n].value, server[n], Negotiated(client, server)[n])
      && forall w :: w > Negotiated(client, server)[n] ==> !Common(client[n].value, server[n], w)
    ensures n !in Negotiated(client, server) <==>
      (n !in client || n !in server || forall w :: !Common(client[n].value, server[n], w))
  {
  }

  /** The loop step for one valid entry: record its highest common version, if any. */
  method SelectFor(selected: map<string, int>, client: map<string, Option<CapabilityVersionRange>>,
                   server: map<string, CapabilityVersionRange>, ghost done: set<string>, name: string)
    returns (r: map<string, int>)
    requires name in client && client[name].Some? && name !in done
    requires selected == NegotiatedOver(client, server, done)
    ensures r == NegotiatedOver(client, server, done + {name})
  {
    NegotiatedOverStep(client, server, done, name);
    assert name !in selected;
    r := selected;
    if name in server {
      var v := Caps.NegotiateHighestCommonVersion(client[name].value, server[name]);
      HighestCommonUnique(client[name].value, server[name], v);
      if v.Some? {
        r := selected[name := v.value];
      }
    }
  }

  /** One absent or invalid range makes the whole declaration invalid. */
  lemma BadEntryInvalidates(client: map<string, Option<CapabilityVersionRange>>, name: string)
    requires name in client && !(client[name].Some? && Valid(client[name].value))
    ensures !AllRangesValid(client)
  {
  }

  /** negotiateCapabilities: one pass over the client's entries that gives up (null) at an
    * absent or invalid range. Which entry it meets first does not matter: the result
    * is null exactly when some range is bad. */
  method NegotiateCapabilities(client: map<string, Option<CapabilityVersionRange>>, server: map<string, CapabilityVersionRange>)
    returns (r: Option<map<string, int>>)
    ensures r.None? <==> !AllRangesValid(client)
    ensures r.Some? ==> r.value == Negotiated(client, server)
  {
    var selected: map<string, int> := map[];
    var remaining := client.Keys;
    ghost var done: set<string> := {};
    while remaining != {}
      invariant remaining + done == client.Keys && remaining !! done
      invariant forall n :: n in done ==> client[n].Some? && Valid(client[n].value)
      invariant selected == NegotiatedOver(client, server, done)
      decreases |remaining|
    {
      ghost var w := Choose(remaining);
      var name :| name in remaining;
      var clientRange := client[name];
      if clientRange.None? {
        BadEntryInvalidates(client, name);
        return None;
      }
      var valid := IsValid(clientRange.value);
      if !valid {
        BadEntryInvalidates(client, name);
        return None;
      }
      selected := SelectFor(selected, client, server, done, name);
      remaining := remaining - {name};
      done := done + {name};
    }
    assert done == client.Keys;
    r := Some(selected);
  }

  /** The names of a required-capabilities declaration, nulls dropped. */
  function RequiredNames(required: set<Option<string>>): set<string> {
    set o | o in required && o.Some? :: o.value
  }

  /** A declaration with no null names declares just those names. */
  lemma RequiredNamesOfNames(names: set<string>)
    ensures RequiredNames(set n | n in names :: Some(n)) == names
  {
    var declared := set n | n in names :: Some(n);
    forall x | x in names ensures x in RequiredNames(declared) {
      assert Some(x) in declared;
    }
  }

  /** missingRequiredCapabilities: the required names with no selection, or null when the
    * declaration holds a null name. */
  method MissingRequired(selected: map<string, int>, required: set<Option<string>>) returns (r: Option<set<string>>)
    ensures r.None? <==> None in required
    ensures r.Some? ==> r.value == RequiredNames(required) - selected.Keys
  {
    var missing: set<string> := {};
    var remaining := required;
    while remaining != {}
      invariant remaining <= required
      invariant None !in required - remaining
      invariant forall x :: x in missing <==> Some(x) in required && Some(x) !in remaining && x !in selected
      decreases |remaining|
    {
      ghost var w := Choose(remaining);
      var name :| name in remaining;
      if name.None? {
        return None;
      }
      if name.value !in selected {
        missing := missing + {name.value};
      }
      remaining := remaining - {name};
    }
    r := Some(missing);
  }

  // ---------------------------------------------------------------------------
  // The guard chain
  // ---------------------------------------------------------------------------

  /** The checks, in the order the server makes them. */
  datatype Check =
    | HasRequestId
    | IsHello
    | ValidEpochRange
    | SupportsEpoch
    | HasColorLevel
    | HasNegotiationData
    | ValidCapabilityRanges
    | ValidRequiredDeclaration
    | RequiredSatisfied

  const CheckOrder: seq<Check> := [
    HasRequestId, IsHello, ValidEpochRange, SupportsEpoch, HasColorLevel,
    HasNegotiationData, ValidCapabilityRanges, ValidRequiredDeclaration, RequiredSatisfied]

  /** The message is a HELLO carrying a Hello payload. */
  predicate IsHelloMessage(m: Message) {
    m.msgType == HELLO && m.payload.Hello?
  }

  /** The negotiation data of a Hello that carries both parts. */
  predicate HasData(p: Payload) {
    p.Hello? && p.capabilities.Some? && p.requiredCapabilities.Some?
  }

  /** Whether a message passes one check. A check about Hello fields passes vacuously on a
    * message without them; the order puts the checks that supply them first. */
  predicate Passes(c: Check, m: Message, server: map<string, CapabilityVersionRange>) {
    var p := m.payload;
    match c
    case HasRequestId => m.requestId.Some?
    case IsHello => IsHelloMessage(m)
    case ValidEpochRange => !p.Hello? || (p.transportEpochRange.Some? && Valid(p.transportEpochRange.value))
    case SupportsEpoch =>
      !p.Hello? || p.transportEpochRange.None? || Contains(p.transportEpochRange.value, ProtocolConstants.TransportEpoch)
    case HasColorLevel => !p.Hello? || p.colorLevel.Some?
    case HasNegotiationData => !p.Hello? || (p.capabilities.Some? && p.requiredCapabilities.Some?)
    case ValidCapabilityRanges => !HasData(p) || AllRangesValid(p.capabilities.value)
    case ValidRequiredDeclaration => !HasData(p) || None !in p.requiredCapabilities.value
    case RequiredSatisfied =>
      !HasData(p) || RequiredNames(p.requiredCapabilities.value) <= Negotiated(p.capabilities.value, server).Keys
  }

  /** The outcome of the checks: the failed check (and, for an unmet requirement, the
    * missing names), or the negotiated selections. */
  datatype Verdict = Rejection(failed: Check, missing: set<string>) | Welcomed(selected: map<string, int>)

  /** performHandshake's decisions, guard by guard. */
  function Decide(m: Message, server: map<string, CapabilityVersionRange>): (v: Verdict)
    ensures v.Welcomed? ==> m.requestId.Some? && IsHelloMessage(m) && HasData(m.payload)
                            && v.selected == Negotiated(m.payload.capabilities.value, server)
    ensures v.Rejection? ==> (v.missing != {} <==> v.failed == RequiredSatisfied)
  {
    if m.requestId.None? then Rejection(HasRequestId, {})
    else if !IsHelloMessage(m) then Rejection(IsHello, {})
    else
      var hello := m.payload;
      if hello.transportEpochRange.None? || !Valid(hello.transportEpochRange.value) then Rejection(ValidEpochRange, {})
      else if !Contains(hello.transportEpochRange.value, ProtocolConstants.TransportEpoch) then Rejection(SupportsEpoch, {})
      else if hello.colorLevel.None? then Rejection(HasColorLevel, {})
      else if hello.capabilities.None? || hello.requiredCapabilities.None? then Rejection(HasNegotiationData, {})
      else if !AllRangesValid(hello.capabilities.value) then Rejection(ValidCapabilityRanges, {})
      else if None in hello.requiredCapabilities.value then Rejection(ValidRequiredDeclaration, {})
      else
        var selected := Negotiated(hello.capabilities.value, server);
        var missing := RequiredNames(hello.requiredCapabilities.value) - selected.Keys;
        if missing != {} then Rejection(RequiredSatisfied, missing)
        else Welcomed(selected)
  }

  /** The chain welcomes exactly the messages passing every check, and otherwise names the
    * first check in order that the message fails. */
  lemma DecideIsFirstFailedCheck(m: Message, server: map<string, CapabilityVersionRange>)
    ensures |CheckOrder| == 9
    ensures Decide(m, server).Welcomed? <==> forall i :: 0 <= i < 9 ==> Passes(CheckOrder[i], m, server)
    ensures Decide(m, server).Rejection? ==>
      exists i :: 0 <= i < 9 && CheckOrder[i] == Decide(m, server).failed
                  && !Passes(CheckOrder[i], m, server)
                  && forall j :: 0 <= j < i ==> Passes(CheckOrder[j], m, server)
  {
    var v := Decide(m, server);
    if v.Rejection? {
      var i := match v.failed
        case HasRequestId => 0 case IsHello => 1 case ValidEpochRange => 2 case SupportsEpoch => 3
        case HasColorLevel => 4 case HasNegotiationData => 5 case ValidCapabilityRanges => 6
        case ValidRequiredDeclaration => 7 case RequiredSatisfied => 8;
      assert CheckOrder[i] == v.failed;
      assert forall j :: 0 <= j < i ==> Passes(CheckOrder[j], m, server);
    } else {
      var p := m.payload;
      var missing := RequiredNames(p.requiredCapabilities.value) - Negotiated(p.capabilities.value, server).Keys;
      assert missing == {};
      assert RequiredNames(p.requiredCapabilities.value) <= Negotiated(p.capabilities.value, server).Keys by {
        forall x | x in RequiredNames(p.requiredCapabilities.value)
          ensures x in Negotiated(p.capabilities.value, server).Keys
        {
          assert x !in missing;
        }
      }
    }
  }

  /** A rejection for missing requirements names exactly the required names left unselected. */
  lemma MissingIsRequiredMinusSelected(m: Message, server: map<string, CapabilityVersionRange>)
    requires Decide(m, server).Rejection? && Decide(m, server).failed == RequiredSatisfied
    ensures HasData(m.payload)
    ensures Decide(m, server).missing
            == RequiredNames(m.payload.requiredCapabilities.value) - Negotiated(m.payload.capabilities.value, server).Keys
    ensures Decide(m, server).missing != {}
  {
  }

  // ---------------------------------------------------------------------------
  // The response
  // ---------------------------------------------------------------------------

  function RejectReason(c: Check): string {
    match c
    case HasRequestId => MissingRequestId
    case IsHello => ExpectedHello
    case ValidEpochRange => InvalidTransportEpochRange
    case SupportsEpoch => UnsupportedTransportEpoch
    case HasColorLevel => MissingColorLevel
    case HasNegotiationData => MissingCapabilityNegotiationData
    case ValidCapabilityRanges => InvalidCapabilityVersionRange
    case ValidRequiredDeclaration => InvalidRequiredCapabilityDeclaration
    case RequiredSatisfied => MissingRequiredCapabilities
  }

  function RejectMessage(c: Check): string {
    match c
    case HasRequestId => "Missing requestId"
    case IsHello => "Expected HELLO"
    case ValidEpochRange => "Invalid transport epoch range"
    case SupportsEpoch => "Unsupported transport epoch"
    case HasColorLevel => "Missing color level"
    case HasNegotiationData => "Missing capability negotiation data"
    case ValidCapabilityRanges => "Invalid capability version range"
    case ValidRequiredDeclaration => "Invalid required capability declaration"
    case RequiredSatisfied => "Missing required capabilities"
  }

  /** Every rejection names the server's epoch, except one for unmet requirements. */
  function ExpectedEpoch(c: Check): Option<int> {
    if c == RequiredSatisfied then None else Some(ProtocolConstants.TransportEpoch)
  }

  /** The selections as a Welcome payload carries them. */
  function AsWelcomeSelections(selected: map<string, int>): (r: map<string, Option<int>>)
    ensures r.Keys == selected.Keys
    ensures forall n :: n in r ==> r[n] == Some(selected[n])
  {
    map n | n in selected :: Some(selected[n])
  }

  function ResponsePayload(v: Verdict): (p: Payload)
    ensures p.Reject? || p.Welcome?
  {
    match v
    case Rejection(c, missing) => Reject(Some(RejectReason(c)), Some(RejectMessage(c)), ExpectedEpoch(c), Some(missing))
    case Welcomed(selected) => Welcome(ProtocolConstants.TransportEpoch, Some(AsWelcomeSelections(selected)))
  }

  /** The one message the server answers the client's first message with. */
  function Response(m: Message, server: map<string, CapabilityVersionRange>): (r: Message)
    ensures r.requestId == m.requestId && r.payload == ResponsePayload(Decide(m, server))
    ensures r.msgType == (if Decide(m, server).Rejection? then REJECT else WELCOME)
    ensures WellTyped(r)
  {
    var payload := ResponsePayload(Decide(m, server));
    ServerTypeOfHandshakePayloads(payload);
    Message(ServerTypeForPayload(payload).value, m.requestId, payload)
  }

  /** What performHandshake hands to the session on success. */
  datatype HandshakeResult = HandshakeResult(hello: Payload, selectedCapabilities: map<string, int>)

  /** performHandshake: answer the first message once, and on success return the HELLO and
    * the selections the WELCOME carried. */
  method PerformHandshake(connection: Outbox, message: Message, server: map<string, CapabilityVersionRange>)
    returns (r: Option<HandshakeResult>)
    modifies connection
    ensures connection.sent == old(connection.sent) + [Response(message, server)]
    ensures r.Some? <==> Decide(message, server).Welcomed?
    ensures r.Some? ==> r.value == HandshakeResult(message.payload, Decide(message, server).selected)
  {
    var verdict: Verdict;
    if message.requestId.None? {
      verdict := Rejection(HasRequestId, {});
    } else if message.msgType != HELLO || !message.payload.Hello? {
      verdict := Rejection(IsHello, {});
    } else {
      var hello := message.payload;
      var validRange := hello.transportEpochRange.Some?;
      if validRange {
        validRange := IsValid(hello.transportEpochRange.value);
      }
      if !validRange {
        verdict := Rejection(ValidEpochRange, {});
      } else {
        var supported := Includes(hello.transportEpochRange.value, ProtocolConstants.TransportEpoch);
        if !supported {
          verdict := Rejection(SupportsEpoch, {});
        } else if hello.colorLevel.None? {
          verdict := Rejection(HasColorLevel, {});
        } else if hello.capabilities.None? || hello.requiredCapabilities.None? {
          verdict := Rejection(HasNegotiationData, {});
        } else {
          var selected := NegotiateCapabilities(hello.capabilities.value, server);
          if selected.None? {
            verdict := Rejection(ValidCapabilityRanges, {});
          } else {
            var missing := MissingRequired(selected.value, hello.requiredCapabilities.value);
            if missing.None? {
              verdict := Rejection(ValidRequiredDeclaration, {});
            } else if missing.value != {} {
              verdict := Rejection(RequiredSatisfied, missing.value);
            } else {
              verdict := Welcomed(selected.value);
            }
          }
        }
      }
    }
    assert verdict == Decide(message, server);
    var payload := ResponsePayload(verdict);
    ServerTypeOfHandshakePayloads(payload);
    var t := ServerTypeForPayload(payload).value;
    connection.Send(Message(t, message.requestId, payload));
    if verdict.Welcomed? {
      r := Some(HandshakeResult(message.payload, verdict.selected));
    } else {
      r := None;
    }
  }

  // ---------------------------------------------------------------------------
  // Scenarios
  // ---------------------------------------------------------------------------

  /** A first message without a request id is refused as such, whatever its type, with the
    * server's epoch and no request id on the REJECT. */
  lemma MissingRequestIdIsRejectedFirst(m: Message, server: map<string, CapabilityVersionRange>)
    requires m.requestId.None?
    ensures Response(m, server).payload
            == Reject(Some(MissingRequestId), Some("Missing requestId"), Some(ProtocolConstants.TransportEpoch), Some({}))
    ensures Response(m, server).requestId.None?
  {
  }

  /** Only an unmet requirement leaves the expected epoch out of a REJECT. */
  lemma ExpectedEpochOnlyWithoutMissing(m: Message, server: map<string, CapabilityVersionRange>)
    requires Decide(m, server).Rejection?
    ensures Response(m, server).payload.expectedTransportEpoch.None? <==> Decide(m, server).failed == RequiredSatisfied
  {
  }

  /** The client's own HELLO: the policy ranges, each present, and the three required names. */
  function BaselineHello(colorLevel: Ansi.ColorLevel): Payload {
    Hello(
      Some(ProtocolConstants.ClientSupportedTransportEpochRange),
      Some(colorLevel),
      Some(map n | n in Caps.ClientSupportedCapabilities :: Some(Caps.ClientSupportedCapabilities[n])),
      Some(set n | n in Caps.ClientRequiredCapabilities :: Some(n)))
  }

  /** Negotiating the client policy against the server policy selects all six names at version 1. */
  lemma BaselineNegotiatesEverythingAtV1(colorLevel: Ansi.ColorLevel)
    ensures Negotiated(BaselineHello(colorLevel).capabilities.value, Caps.ServerSupportedCapabilities)
            == map n | n in Caps.AllNames :: Caps.V1
  {
    Caps.PoliciesCoverAllNames();
    Caps.PolicyRangesAreV1();
    Caps.V1OnlyNegotiatesV1();
    var client := BaselineHello(colorLevel).capabilities.value;
    assert client.Keys == Caps.AllNames;
    assert forall n :: n in client ==> client[n] == Some(Caps.V1Only);
  }

  /** The baseline HELLO with a request id is welcomed with all six names at version 1. */
  lemma BaselineHandshakeIsWelcomed(requestId: string, colorLevel: Ansi.ColorLevel)
    ensures Decide(Message(HELLO, Some(requestId), BaselineHello(colorLevel)), Caps.ServerSupportedCapabilities)
            == Welcomed(map n | n in Caps.AllNames :: Caps.V1)
  {
    BaselineNegotiatesEverythingAtV1(colorLevel);
    ProtocolConstants.ClientEpochRangeIsExactlyCurrent();
    Caps.PoliciesCoverAllNames();
    Caps.PolicyRangesAreV1();
    Caps.RequiredAreSupported();
    var hello := BaselineHello(colorLevel);
    RequiredNamesOfNames(Caps.ClientRequiredCapabilities);
  }
}
