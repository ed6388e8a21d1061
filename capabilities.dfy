/**
 * The capability names and the client's and server's capability policies:
 * which capabilities each side supports, at which versions, and which ones
 * the client cannot work without.
 */
module ProtocolCapabilities {
  import opened Wrappers
  import opened VersionRanges

  const CommandExecute: string := "command_execute"
  const LogForward: string := "log_forward"
  const InteractivityStatus: string := "interactivity_status"
  const Completion: string := "completion"
  const SyntaxHighlight: string := "syntax_highlight"
  const Parse: string := "parse"

  const V1: int := 1

  /** The range every capability is offered at in this release: exactly V1. */
  const V1Only: CapabilityVersionRange := CapabilityVersionRange(V1, V1, {})

  const AllNames: set<string> := {CommandExecute, LogForward, InteractivityStatus, Completion, SyntaxHighlight, Parse}

  const ClientSupportedCapabilities: map<string, CapabilityVersionRange> := map[
    CommandExecute := V1Only,
    LogForward := V1Only,
    InteractivityStatus := V1Only,
    Completion := V1Only,
    SyntaxHighlight := V1Only,
    Parse := V1Only
  ]

  const ClientRequiredCapabilities: set<string> := {CommandExecute, LogForward, InteractivityStatus}

  const ServerSupportedCapabilities: map<string, CapabilityVersionRange> := map[
    CommandExecute := V1Only,
    LogForward := V1Only,
    InteractivityStatus := V1Only,
    Completion := V1Only,
    SyntaxHighlight := V1Only,
    Parse := V1Only
  ]

  /** negotiateHighestCommonVersion: the client's range asks the server's for their highest common version. */
  method NegotiateHighestCommonVersion(clientRange: CapabilityVersionRange, serverRange: CapabilityVersionRange)
    returns (r: Option<int>)
    ensures r.Some? ==> Common(clientRange, serverRange, r.value)
    ensures r.Some? ==> forall w :: w > r.value ==> !Common(clientRange, serverRange, w)
    ensures r.None? <==> forall w :: !Common(clientRange, serverRange, w)
  {
    r := HighestCommonVersion(clientRange, serverRange);
  }

  /** The six names are six different strings. */
  lemma NamesDistinct()
    ensures |AllNames| == 6
  {
    var s5 := {CommandExecute, LogForward, InteractivityStatus, Completion, SyntaxHighlight};
    var s4 := {CommandExecute, LogForward, InteractivityStatus, Completion};
    var s3 := {CommandExecute, LogForward, InteractivityStatus};
    assert |{CommandExecute, LogForward}| == 2;
    assert |s3| == 3;
    assert |s4| == 4;
    assert |s5| == 5;
    assert AllNames == s5 + {Parse};
  }

  /** Both policies cover exactly the six capabilities. */
  lemma PoliciesCoverAllNames()
    ensures ClientSupportedCapabilities.Keys == AllNames
    ensures ServerSupportedCapabilities.Keys == AllNames
  {
  }

  /** The client never requires a capability it does not itself support. */
  lemma RequiredAreSupported()
    ensures ClientRequiredCapabilities <= ClientSupportedCapabilities.Keys
    ensures |ClientRequiredCapabilities| == 3
  {
    NamesDistinct();
  }

  /** Every policy range is [V1, V1] with no exclusions, is valid, and contains exactly V1. */
  lemma PolicyRangesAreV1()
    ensures forall n :: n in ClientSupportedCapabilities ==> ClientSupportedCapabilities[n] == V1Only
    ensures forall n :: n in ServerSupportedCapabilities ==> ServerSupportedCapabilities[n] == V1Only
    ensures Valid(V1Only)
    ensures forall v :: Contains(V1Only, v) <==> v == V1
  {
  }

  /** Any two capabilities offered at V1Only on both sides agree on version 1. */
  lemma V1OnlyNegotiatesV1()
    ensures HighestCommon(V1Only, V1Only) == Some(V1)
  {
    HighestCommonUnique(V1Only, V1Only, Some(V1));
  }
}
