/**
  The readable message `sendTransaction` puts into a node error before rethrowing it: the text
  after "Error: " in the first log line that mentions "Error:", or else the text after
  "Transaction simulation failed: " in the node's own message.
*/
module ErrorRewrite {
  import opened Wrappers
  import opened Strings
  import opened Errors

  const ErrorMarker: string := "Error:"
  const ErrorSeparator: string := "Error: "
  const SimulationFailedSeparator: string := "Transaction simulation failed: "

  /** The position of the first line at or after `from` that contains `marker`. */
  function FirstMatch(lines: seq<string>, marker: string, from: nat): (r: Option<nat>)
    decreases |lines| - from
    ensures r.Some? ==> from <= r.value < |lines| && Contains(lines[r.value], marker)
    ensures r.Some? ==> forall j :: from <= j < r.value ==> !Contains(lines[j], marker)
    ensures r.None? ==> forall j :: from <= j < |lines| ==> !Contains(lines[j], marker)
  {
    if from >= |lines| then None
    else if Contains(lines[from], marker) then Some(from)
    else FirstMatch(lines, marker, from + 1)
  }

  /** `lines.first(where: { $0.contains(marker) })`: the first line containing `marker`, if there is one. */
  function FirstContaining(lines: seq<string>, marker: string): (r: Option<string>)
    ensures r.Some? <==> exists k :: 0 <= k < |lines| && Contains(lines[k], marker)
    ensures r.Some? ==> Contains(r.value, marker)
    ensures r.Some? ==>
      exists k :: 0 <= k < |lines| && r.value == lines[k] &&
                  (forall j :: 0 <= j < k ==> !Contains(lines[j], marker))
  {
    match FirstMatch(lines, marker, 0)
    case None => None
    case Some(k) => Some(lines[k])
  }

  /** `response.data?.logs`, where a missing `data` or `logs` offers no line at all. */
  function LogLines(response: ResponseError): (r: seq<string>)
    ensures response.data.Some? && response.data.value.logs.Some? ==> r == response.data.value.logs.value
    ensures r != [] ==> response.data.Some? && response.data.value.logs.Some?
  {
    if response.data.Some? && response.data.value.logs.Some? then response.data.value.logs.value else []
  }

  /**
    The message that replaces a node's non-nil message: the tail of the first log line with
    "Error:" when there is one, else the tail of the node's message, which is kept whole when it
    does not mention a failed simulation.
  */
  function ReadableMessage(response: ResponseError): (r: string)
    requires response.message.Some?
    ensures var line := FirstContaining(LogLines(response), ErrorMarker);
      && (line.Some? ==> |r| <= |line.value| && line.value[|line.value| - |r|..] == r)
      && (line.None? ==>
            |r| <= |response.message.value| && response.message.value[|response.message.value| - |r|..] == r)
      && (line.None? && !Contains(response.message.value, SimulationFailedSeparator) ==>
            r == response.message.value)
  {
    match FirstContaining(LogLines(response), ErrorMarker)
    case Some(line) => LastComponent(line, ErrorSeparator)
    case None => LastComponent(response.message.value, SimulationFailedSeparator)
  }

  /**
    The error `sendTransaction` rethrows for an `error` thrown by its request. Only an
    `invalidResponse` carrying a message is touched, and only its message: the kind of error,
    its code and its data stay as they were.
  */
  function RewrittenError(error: Error): (r: Error)
    ensures (r.Solana? && r.solanaError.InvalidResponse?) <==>
            (error.Solana? && error.solanaError.InvalidResponse?)
    ensures r != error ==>
      error.Solana? && error.solanaError.InvalidResponse? && error.solanaError.response.message.Some?
    ensures error.Solana? && error.solanaError.InvalidResponse? ==>
      var before, after := error.solanaError.response, r.solanaError.response;
      after.code == before.code && after.data == before.data && after.message.Some? == before.message.Some?
  {
    match error
    case Solana(InvalidResponse(response)) =>
      if response.message.Some? then
        Solana(InvalidResponse(response.(message := Some(ReadableMessage(response)))))
      else error
    case _ => error
  }

  lemma FirstContainingIs(lines: seq<string>, marker: string, k: nat)
    requires k < |lines| && Contains(lines[k], marker)
    requires forall j :: 0 <= j < k ==> !Contains(lines[j], marker)
    ensures FirstContaining(lines, marker) == Some(lines[k])
  {
    var m := FirstMatch(lines, marker, 0);
    assert m.Some? && m.value == k;
  }

  lemma SeparatorsUnbordered()
    ensures Unbordered(ErrorSeparator) && Unbordered(SimulationFailedSeparator)
  {
    UniqueLeadIsUnbordered(ErrorSeparator);
    UniqueLeadIsUnbordered(SimulationFailedSeparator);
  }

  /**
    When the first log line mentioning "Error:" reads `p + "Error: " + x` and `x` holds no
    further "Error: ", the rethrown message is `x`.
  */
  lemma RewriteFromErrorLog(response: ResponseError, k: nat, p: string, x: string)
    requires response.message.Some?
    requires k < |LogLines(response)| && LogLines(response)[k] == p + ErrorSeparator + x
    requires forall j :: 0 <= j < k ==> !Contains(LogLines(response)[j], ErrorMarker)
    requires !Contains(x, ErrorSeparator)
    ensures RewrittenError(Solana(InvalidResponse(response))) ==
            Solana(InvalidResponse(response.(message := Some(x))))
  {
    var line := LogLines(response)[k];
    assert OccursAt(line, ErrorMarker, |p|) by {
      assert line[|p|..|p| + |ErrorMarker|] == ErrorMarker;
    }
    FirstContainingIs(LogLines(response), ErrorMarker, k);
    SeparatorsUnbordered();
    LastComponentAfter(p, ErrorSeparator, x);
  }

  /** A first "Error:" line without "Error: " (no space after the colon) becomes the message whole. */
  lemma RewriteFromErrorLogWithoutSeparator(response: ResponseError, k: nat)
    requires response.message.Some?
    requires k < |LogLines(response)| && Contains(LogLines(response)[k], ErrorMarker)
    requires forall j :: 0 <= j < k ==> !Contains(LogLines(response)[j], ErrorMarker)
    requires !Contains(LogLines(response)[k], ErrorSeparator)
    ensures RewrittenError(Solana(InvalidResponse(response))) ==
            Solana(InvalidResponse(response.(message := Some(LogLines(response)[k]))))
  {
    FirstContainingIs(LogLines(response), ErrorMarker, k);
    LastComponentFacts(LogLines(response)[k], ErrorSeparator);
  }

  /**
    With no log line mentioning "Error:", a message `p + "Transaction simulation failed: " + y`
    whose `y` holds no further marker is cut down to `y`.
  */
  lemma RewriteFromSimulationFailure(response: ResponseError, p: string, y: string)
    requires forall j :: 0 <= j < |LogLines(response)| ==> !Contains(LogLines(response)[j], ErrorMarker)
    requires response.message == Some(p + SimulationFailedSeparator + y)
    requires !Contains(y, SimulationFailedSeparator)
    ensures RewrittenError(Solana(InvalidResponse(response))) ==
            Solana(InvalidResponse(response.(message := Some(y))))
  {
    assert FirstMatch(LogLines(response), ErrorMarker, 0).None?;
    SeparatorsUnbordered();
    LastComponentAfter(p, SimulationFailedSeparator, y);
  }

  /** With neither marker anywhere, the error is rethrown exactly as it came. */
  lemma RewriteKeepsPlainMessage(response: ResponseError)
    requires forall j :: 0 <= j < |LogLines(response)| ==> !Contains(LogLines(response)[j], ErrorMarker)
    requires response.message.Some? && !Contains(response.message.value, SimulationFailedSeparator)
    ensures RewrittenError(Solana(InvalidResponse(response))) == Solana(InvalidResponse(response))
  {
    assert FirstMatch(LogLines(response), ErrorMarker, 0).None?;
    LastComponentFacts(response.message.value, SimulationFailedSeparator);
  }

  /** Rewriting an already rewritten error changes nothing more. */
  lemma RewriteIdempotent(error: Error)
    ensures RewrittenError(RewrittenError(error)) == RewrittenError(error)
  {
    if error.Solana? && error.solanaError.InvalidResponse? && error.solanaError.response.message.Some? {
      var response := error.solanaError.response;
      if FirstContaining(LogLines(response), ErrorMarker).None? {
        LastComponentIdempotent(response.message.value, SimulationFailedSeparator);
      }
    }
  }
}
