/**
 * The fatal handshake failures a client reports, and the message each one
 * shows the user. Every variant keeps its constructor arguments unchanged as
 * its fields.
 */
module HandshakeErrors {
  import opened Strings

  datatype HandshakeFatal =
    | ProtocolMismatch(reason: string, expectedTransportEpoch: int, actualTransportEpoch: int)
    | MissingRequiredCapabilities(reason: string, missingRequiredCapabilities: set<string>)
    | UnknownRejectReason(rejectReason: string, rejectMessage: string)
    | InvalidHandshakeResponse(message: string)

  const PleaseOpening: string := ". Please"
  const MatchingVersionsHint: string := PleaseOpening + " update client/server to matching versions."
  const CompatibleVersionsHint: string := PleaseOpening + " update client/server to compatible versions."

  /** The opening sentence of each kind of message, up to its optional clause. */
  function Head(e: HandshakeFatal): string {
    match e
    case ProtocolMismatch(_, expected, actual) =>
      "Transport epoch mismatch: server expects epoch " + IntToString(expected) + ", client is epoch " + IntToString(actual)
    case MissingRequiredCapabilities(_, missing) =>
      "Protocol capability mismatch: missing required capabilities " + MissingList(missing)
    case UnknownRejectReason(rejectReason, _) => "Handshake rejected with reason '" + rejectReason + "'"
    case InvalidHandshakeResponse(_) => "Handshake failed: invalid response from server"
  }

  /** The closing hint: mismatched epochs ask for matching versions, the rest for compatible ones. */
  function Hint(e: HandshakeFatal): string {
    if e.ProtocolMismatch? then MatchingVersionsHint else CompatibleVersionsHint
  }

  /** The text of the optional clause, and the words around it. */
  function ClauseText(e: HandshakeFatal): string {
    match e
    case ProtocolMismatch(reason, _, _) => reason
    case MissingRequiredCapabilities(reason, _) => reason
    case UnknownRejectReason(_, rejectMessage) => rejectMessage
    case InvalidHandshakeResponse(message) => message
  }

  function ClauseOpen(e: HandshakeFatal): string {
    match e
    case ProtocolMismatch(_, _, _) => ". Reason: "
    case MissingRequiredCapabilities(_, _) => ". Reason: "
    case UnknownRejectReason(_, _) => ": "
    case InvalidHandshakeResponse(_) => " ("
  }

  function ClauseClose(e: HandshakeFatal): string {
    if e.InvalidHandshakeResponse? then ")" else ""
  }

  /** The missing names in ascending order joined by ", ", or "<none>" for no names. */
  function MissingList(missing: set<string>): (r: string)
    ensures missing == {} ==> r == "<none>"
    ensures |missing| == 1 ==> r in missing
    ensures missing != {} ==> r == Join(SortedElements(missing), ", ")
  {
    if missing == {} then "<none>" else Join(SortedElements(missing), ", ")
  }

  /** A message with an optional clause: `open + text + close` only when `text` is not blank. */
  function WithClause(head: string, open: string, text: string, close: string, hint: string): string {
    head + (if IsBlank(text) then "" else open + text + close) + hint
  }

  lemma WithClauseShape(head: string, open: string, text: string, close: string, hint: string)
    ensures StartsWith(WithClause(head, open, text, close, hint), head)
    ensures EndsWith(WithClause(head, open, text, close, hint), hint)
  {
    var r := WithClause(head, open, text, close, hint);
    assert r[..|head|] == head;
    assert r[|r| - |hint|..] == hint;
  }

  /** When the hint cannot be mistaken for the clause's opening, the clause follows the head
    * exactly when the text is not blank. */
  lemma ClauseFollowsHeadIffNonBlank(head: string, open: string, text: string, close: string, hint: string)
    requires |hint| >= 3 && hint[0] == '.' && hint[2] == 'P'
    requires |open| >= 1 && (open[0] != '.' || (|open| >= 3 && open[2] != 'P'))
    ensures var r := WithClause(head, open, text, close, hint);
            StartsWith(r[|head|..], open + text) <==> !IsBlank(text)
  {
    var r := WithClause(head, open, text, close, hint);
    var rest := r[|head|..];
    var opening := open + text;
    if IsBlank(text) {
      assert rest == hint;
      assert rest[0] != opening[0] || (|opening| >= 3 && rest[2] != opening[2]);
    } else {
      assert rest == opening + close + hint;
      assert rest[..|opening|] == opening;
    }
  }

  /** Both hints begin ". P", which no clause opening does. */
  lemma HintsBeginWithPlease(e: HandshakeFatal)
    ensures |Hint(e)| >= 3 && Hint(e)[0] == '.' && Hint(e)[2] == 'P'
    ensures |ClauseOpen(e)| >= 1 && (ClauseOpen(e)[0] != '.' || (|ClauseOpen(e)| >= 3 && ClauseOpen(e)[2] != 'P'))
  {
    assert PleaseOpening[0] == '.' && PleaseOpening[2] == 'P';
  }

  /** userFacingMessage of each variant: its opening sentence, the clause when the clause's
    * text is not blank, and the hint. */
  function UserFacingMessage(e: HandshakeFatal): (r: string)
    ensures StartsWith(r, Head(e)) && EndsWith(r, Hint(e))
  {
    WithClauseShape(Head(e), ClauseOpen(e), ClauseText(e), ClauseClose(e), Hint(e));
    WithClause(Head(e), ClauseOpen(e), ClauseText(e), ClauseClose(e), Hint(e))
  }

  /** The clause ". Reason: r", ": m" or " (m)" follows the opening sentence exactly when its
    * text is not blank. */
  lemma ClauseIffNonBlank(e: HandshakeFatal)
    ensures var r := UserFacingMessage(e);
            StartsWith(r[|Head(e)|..], ClauseOpen(e) + ClauseText(e)) <==> !IsBlank(ClauseText(e))
  {
    HintsBeginWithPlease(e);
    ClauseFollowsHeadIffNonBlank(Head(e), ClauseOpen(e), ClauseText(e), ClauseClose(e), Hint(e));
  }

  /** A blank clause text leaves just the opening sentence and the hint. */
  lemma BlankClauseIsOmitted(e: HandshakeFatal)
    requires IsBlank(ClauseText(e))
    ensures UserFacingMessage(e) == Head(e) + Hint(e)
  {
  }

  /** A string occurs inside another. */
  ghost predicate Occurs(sub: string, s: string) {
    exists k :: OccursAt(sub, s, k)
  }

  predicate OccursAt(sub: string, s: string, k: int) {
    0 <= k && k + |sub| <= |s| && s[k..k + |sub|] == sub
  }

  /** Every joined element occurs in the join. */
  lemma {:induction false} JoinContainsEach(xs: seq<string>, sep: string, i: int)
    requires 0 <= i < |xs|
    ensures Occurs(xs[i], Join(xs, sep))
    decreases |xs|
  {
    var r := Join(xs, sep);
    if |xs| == 1 {
      assert OccursAt(xs[0], r, 0);
    } else {
      var init := xs[..|xs| - 1];
      var front := Join(init, sep) + sep;
      assert r == front + xs[|xs| - 1];
      if i == |xs| - 1 {
        assert r[|front|..|front| + |xs[i]|] == xs[i];
        assert OccursAt(xs[i], r, |front|);
      } else {
        JoinContainsEach(init, sep, i);
        assert init[i] == xs[i];
        var k :| OccursAt(xs[i], Join(init, sep), k);
        assert r[k..k + |xs[i]|] == Join(init, sep)[k..k + |xs[i]|];
        assert OccursAt(xs[i], r, k);
      }
    }
  }

  /** Every missing name is named in the missing-capabilities message. */
  lemma EveryMissingNameIsListed(reason: string, missing: set<string>, name: string)
    requires name in missing
    ensures Occurs(name, MissingList(missing))
  {
    var xs := SortedElements(missing);
    var i :| 0 <= i < |xs| && xs[i] == name;
    JoinContainsEach(xs, ", ", i);
  }

  /** With two or more names the list starts with the least of them and a separator. */
  lemma MissingListStartsWithLeast(missing: set<string>)
    requires |missing| >= 2
    ensures StartsWith(MissingList(missing), Minimum(missing) + ", ")
  {
    var xs := SortedElements(missing);
    JoinStartsWithFirst(xs, ", ");
    assert IsMinimum(xs[0], missing) by {
      forall x | x in missing && x != xs[0] ensures Less(xs[0], x) {
        var j :| 0 <= j < |xs| && xs[j] == x;
        assert j != 0;
      }
    }
    assert IsMinimum(Minimum(missing), missing);
    MinimumUnique(missing, xs[0], Minimum(missing));
  }
}
