/** Model of the Substreams-based indexer entry point: how it picks its start
    height, opens the first block window, and walks the stream of block
    responses, handing each new block to the block-output processor at a
    locally tracked height and panicking on the first processing error.

    Foreign collaborators (the database, the package file, the gRPC endpoint,
    the stream itself and the processor) appear as inputs: their answers are
    given up front as values and sequences. */
module SfIndexer {

  datatype Option<T> = None | Some(value: T)

  /** Width of the first block window requested from the provider. */
  const WindowSize: nat := 500

  /** The only module name whose output the indexer knows how to process. */
  const BlockOutputModule: string := "block_to_block_output"

  /** A response carried by a successful stream item: a new block (with the
      provider's opaque cursor) or any other kind of response. */
  datatype BlockResponse = New(cursor: string) | OtherResponse

  /** One item yielded by the stream: `Err(_)` or `Ok(response)`.  The end
      of the stream (`None`) is the end of the event sequence. */
  datatype StreamEvent = Failed | Received(response: BlockResponse)

  /** What the block-output processor answered for one block. */
  datatype ProcessResult = Processed | ProcessError

  /** One hand-over to the processor: the position of the event in the
      stream and the block height passed along with it. */
  datatype Call = Call(event: nat, height: nat)

  /** How the consumption loop ended: the stream ran out, or the processor
      failed on the event at position `at` and the indexer panicked. */
  datatype LoopEnd = Consumed | Aborted(at: nat)

  /** Everything the loop leaves behind: how it ended, the final value of
      the local height counter, and the processor calls in order. */
  datatype Trace = Trace(end: LoopEnd, height: nat, calls: seq<Call>)

  /** The first request made to the stream: no cursor, the subscribed module
      and the half-open height window [startBlock, endBlock). */
  datatype StreamRequest = StreamRequest(cursor: Option<string>, moduleName: string, startBlock: nat, endBlock: nat)

  /** Command-line arguments. */
  datatype IndexerArgs = IndexerArgs(endpointUrl: string, packageFile: string, moduleName: string, skipMigrations: bool)

  /** Environment variables the indexer looks up (None when unset). */
  datatype Environment = Environment(databaseUrl: Option<string>, apiToken: Option<string>)

  /** The answers of the foreign collaborators for one run. */
  datatype Collaborators = Collaborators(
    packageReadable: bool,            // read_package succeeds
    endpointAccepts: bool,            // SubstreamsEndpoint::new succeeds
    storedStart: Option<nat>,         // what get_start_block returns
    events: seq<StreamEvent>,         // the items stream.next() yields, in order
    outcomes: seq<ProcessResult>)     // the processor's answer for the event at each position

  /** State of a run that got as far as the consumption loop. */
  datatype Session = Session(migrationsRun: bool, token: Option<string>, request: StreamRequest, trace: Trace)

  /** How a run of the indexer's entry point ends. */
  datatype Exit =
    | DatabaseUrlMissing   // `expect` on DATABASE_URL panics
    | PackageError(migrationsRun: bool)    // read_package fails; main returns Err
    | EndpointError(migrationsRun: bool)   // the endpoint cannot be created; main returns Err
    | Ran(session: Session)

  /** The run returned `Ok(())`: it reached the end of the stream. */
  predicate ReturnsOk(e: Exit) {
    e.Ran? && e.session.trace.end.Consumed?
  }

  // ---------------------------------------------------------------------
  // Specification of the consumption loop

  /** The event is handed to the processor when it reaches the loop. */
  predicate Handled(moduleName: string, e: StreamEvent) {
    moduleName == BlockOutputModule && e.Received? && e.response.New?
  }

  /** Positions, among the first n events, of the events that are handed
      to the processor, in stream order. */
  function Eligible(moduleName: string, events: seq<StreamEvent>, n: nat): seq<nat>
    requires n <= |events|
  {
    if n == 0 then []
    else Eligible(moduleName, events, n - 1) + (if Handled(moduleName, events[n - 1]) then [n - 1] else [])
  }

  /** The stream positions of a sequence of processor calls. */
  function CallEvents(calls: seq<Call>): (r: seq<nat>)
    ensures |r| == |calls|
    ensures forall k :: 0 <= k < |calls| ==> r[k] == calls[k].event
  {
    if calls == [] then [] else CallEvents(calls[..|calls| - 1]) + [calls[|calls| - 1].event]
  }

  /** Number of stream events the loop reads before it stops. */
  function Stop(t: Trace, events: seq<StreamEvent>): nat {
    match t.end
    case Consumed => |events|
    case Aborted(at) => at + 1
  }

  /** Number of calls whose block the processor accepted: all of them on a
      normal end, all but the failing last one on an abort. */
  function Accepted(t: Trace): int {
    if t.end.Aborted? then |t.calls| - 1 else |t.calls|
  }

  /** The trace a run of the loop from height `start` must leave:
      - exactly the eligible events up to where it stopped were handed to
        the processor, in order, the k-th one at height start + k;
      - every call but an aborting last one succeeded;
      - on an abort the last call is the one that failed;
      - the height advanced once per accepted block and not for the failed
        one. */
  ghost predicate ValidTrace(moduleName: string, start: nat, events: seq<StreamEvent>,
                             outcomes: seq<ProcessResult>, t: Trace)
  {
    && |outcomes| == |events|
    && Stop(t, events) <= |events|
    && CallEvents(t.calls) == Eligible(moduleName, events, Stop(t, events))
    && (forall k :: 0 <= k < |t.calls| ==> t.calls[k].height == start + k)
    && (forall k :: 0 <= k < Accepted(t) ==> t.calls[k].event < |outcomes| && outcomes[t.calls[k].event] == Processed)
    && (t.end.Aborted? ==> |t.calls| > 0 && t.calls[|t.calls| - 1].event == t.end.at && outcomes[t.end.at] == ProcessError)
    && t.height == start + Accepted(t)
  }

  // ---------------------------------------------------------------------
  // The operations

  /** The API token: the environment value when it is set and non-empty,
      otherwise none (an unset variable reads as the empty string). */
  method SelectToken(tokenVar: Option<string>) returns (token: Option<string>)
    ensures token.Some? <==> tokenVar.Some? && tokenVar.value != ""
    ensures token.Some? ==> token == tokenVar
  {
    var tokenEnv := if tokenVar.Some? then tokenVar.value else "";
    token := None;
    if tokenEnv != "" {
      token := Some(tokenEnv);
    }
  }

  /** The first stream request: no cursor, window [start, start + 500). */
  function OpenStream(moduleName: string, start: nat): (req: StreamRequest)
    ensures req.cursor.None? && req.moduleName == moduleName
    ensures req.startBlock == start && req.endBlock - req.startBlock == WindowSize
  {
    StreamRequest(None, moduleName, start, start + WindowSize)
  }

  /** The consumption loop: read events until the stream ends, skip failed
      items and non-block responses, hand each new block to the processor
      (when the module is the block-output one) and advance the height by
      one on success; stop at the first processing error. */
  method ConsumeStream(moduleName: string, start: nat, events: seq<StreamEvent>, outcomes: seq<ProcessResult>)
    returns (t: Trace)
    requires |outcomes| == |events|
    ensures ValidTrace(moduleName, start, events, outcomes, t)
  {
    var blockHeight := start;
    var calls: seq<Call> := [];
    var i := 0;
    while i < |events|
      invariant 0 <= i <= |events|
      invariant Run(moduleName, events, outcomes, i, blockHeight, calls) == Run(moduleName, events, outcomes, 0, start, [])
    {
      var event := events[i];
      if event.Received? && event.response.New? && moduleName == BlockOutputModule {
        calls := calls + [Call(i, blockHeight)];
        if outcomes[i] == Processed {
          blockHeight := blockHeight + 1;
        } else {
          t := Trace(Aborted(i), blockHeight, calls);
          RunValid(moduleName, start, events, outcomes, 0, Trace(Consumed, start, []));
          return;
        }
      }
      i := i + 1;
    }
    t := Trace(Consumed, blockHeight, calls);
    RunValid(moduleName, start, events, outcomes, 0, Trace(Consumed, start, []));
  }

  /** The entry point, from argument parsing to the end of the stream. */
  method RunIndexer(args: IndexerArgs, env: Environment, c: Collaborators) returns (r: Exit)
    requires |c.outcomes| == |c.events|
    ensures env.databaseUrl.None? <==> r == DatabaseUrlMissing
    ensures env.databaseUrl.Some? && !c.packageReadable <==> r.PackageError?
    ensures env.databaseUrl.Some? && c.packageReadable && !c.endpointAccepts <==> r.EndpointError?
    ensures (r.PackageError? || r.EndpointError?) ==> r.migrationsRun == !args.skipMigrations
    ensures ReturnsOk(r) <==>
      && env.databaseUrl.Some? && c.packageReadable && c.endpointAccepts
      && forall i :: 0 <= i < |c.events| && Handled(args.moduleName, c.events[i]) ==> c.outcomes[i] == Processed
    ensures r.Ran? ==>
      var start := if c.storedStart.Some? then c.storedStart.value else 0;
      && r.session.migrationsRun == !args.skipMigrations
      && (r.session.token.Some? <==> env.apiToken.Some? && env.apiToken.value != "")
      && (r.session.token.Some? ==> r.session.token == env.apiToken)
      && r.session.request == StreamRequest(None, args.moduleName, start, start + WindowSize)
      && ValidTrace(args.moduleName, start, c.events, c.outcomes, r.session.trace)
  {
    if env.databaseUrl.None? {
      return DatabaseUrlMissing;
    }
    var migrationsRun := !args.skipMigrations;
    var token := SelectToken(env.apiToken);
    if !c.packageReadable {
      return PackageError(migrationsRun);
    }
    if !c.endpointAccepts {
      return EndpointError(migrationsRun);
    }
    var startBlock := if c.storedStart.Some? then c.storedStart.value else 0;
    var request := OpenStream(args.moduleName, startBlock);
    var trace := ConsumeStream(args.moduleName, startBlock, c.events, c.outcomes);
    r := Ran(Session(migrationsRun, token, request, trace));
    ConsumedIffNoFailure(args.moduleName, startBlock, c.events, c.outcomes, trace);
  }

  // ---------------------------------------------------------------------
  // Properties of the specification

  /** Eligible up to a is a prefix of Eligible up to b when a <= b. */
  lemma {:induction false} EligiblePrefix(moduleName: string, events: seq<StreamEvent>, a: nat, b: nat)
    requires a <= b <= |events|
    ensures |Eligible(moduleName, events, a)| <= |Eligible(moduleName, events, b)|
    ensures Eligible(moduleName, events, b)[..|Eligible(moduleName, events, a)|] == Eligible(moduleName, events, a)
    decreases b - a
  {
    if a < b {
      EligiblePrefix(moduleName, events, a, b - 1);
      var eb := Eligible(moduleName, events, b - 1);
      assert Eligible(moduleName, events, b)[..|eb|] == eb;
    }
  }

  /** The eligible positions are handled events among the first n, in
      strictly increasing order. */
  lemma {:induction false} EligibleSound(moduleName: string, events: seq<StreamEvent>, n: nat)
    requires n <= |events|
    ensures forall k :: 0 <= k < |Eligible(moduleName, events, n)| ==>
      Eligible(moduleName, events, n)[k] < n && Handled(moduleName, events[Eligible(moduleName, events, n)[k]])
    ensures forall k, l :: 0 <= k < l < |Eligible(moduleName, events, n)| ==>
      Eligible(moduleName, events, n)[k] < Eligible(moduleName, events, n)[l]
  {
    if n > 0 {
      EligibleSound(moduleName, events, n - 1);
    }
  }

  /** Every handled event among the first n is eligible. */
  lemma {:induction false} EligibleComplete(moduleName: string, events: seq<StreamEvent>, n: nat, i: nat)
    requires i < n <= |events| && Handled(moduleName, events[i])
    ensures i in Eligible(moduleName, events, n)
  {
    if i < n - 1 {
      EligibleComplete(moduleName, events, n - 1, i);
    }
  }

  /** Appending an event does not change which of the earlier ones are
      eligible. */
  lemma AppendKeepsEligible(moduleName: string, events: seq<StreamEvent>, e: StreamEvent)
    ensures Eligible(moduleName, events + [e], |events|) == Eligible(moduleName, events, |events|)
  {
    assert (events + [e])[..|events|] == events[..|events|];
    EligibleReadsPrefix(moduleName, events, events + [e], |events|);
  }

  /** Eligible up to n reads only the first n events. */
  lemma {:induction false} EligibleReadsPrefix(moduleName: string, e1: seq<StreamEvent>, e2: seq<StreamEvent>, n: nat)
    requires n <= |e1| && n <= |e2| && e1[..n] == e2[..n]
    ensures Eligible(moduleName, e1, n) == Eligible(moduleName, e2, n)
  {
    if n > 0 {
      assert e1[..n - 1] == e1[..n][..n - 1] && e2[..n - 1] == e2[..n][..n - 1];
      assert e1[n - 1] == e1[..n][n - 1];
      EligibleReadsPrefix(moduleName, e1, e2, n - 1);
    }
  }

  /** Two sequences of calls with the same positions and heights start + k
      are the same. */
  lemma CallsDetermined(c1: seq<Call>, c2: seq<Call>, start: nat)
    requires CallEvents(c1) == CallEvents(c2)
    requires forall k :: 0 <= k < |c1| ==> c1[k].height == start + k
    requires forall k :: 0 <= k < |c2| ==> c2[k].height == start + k
    ensures c1 == c2
  {
    assert |c1| == |CallEvents(c1)|;
    forall k | 0 <= k < |c1| ensures c1[k] == c2[k] {
      assert c1[k].event == CallEvents(c1)[k] == c2[k].event;
    }
  }

  /** The specification determines the run: for given inputs there is at
      most one valid trace. */
  lemma ValidTraceUnique(moduleName: string, start: nat, events: seq<StreamEvent>,
                         outcomes: seq<ProcessResult>, t1: Trace, t2: Trace)
    requires ValidTrace(moduleName, start, events, outcomes, t1)
    requires ValidTrace(moduleName, start, events, outcomes, t2)
    ensures t1 == t2
  {
    if Stop(t1, events) <= Stop(t2, events) {
      StopDetermined(moduleName, start, events, outcomes, t1, t2);
    } else {
      StopDetermined(moduleName, start, events, outcomes, t2, t1);
    }
    CallsDetermined(t1.calls, t2.calls, start);
  }

  /** Helper of ValidTraceUnique: the trace that stops no later ends the
      same way as the other one. */
  lemma StopDetermined(moduleName: string, start: nat, events: seq<StreamEvent>,
                       outcomes: seq<ProcessResult>, t1: Trace, t2: Trace)
    requires ValidTrace(moduleName, start, events, outcomes, t1)
    requires ValidTrace(moduleName, start, events, outcomes, t2)
    requires Stop(t1, events) <= Stop(t2, events)
    ensures t1.end == t2.end && CallEvents(t1.calls) == CallEvents(t2.calls)
  {
    var s1, s2 := Stop(t1, events), Stop(t2, events);
    EligiblePrefix(moduleName, events, s1, s2);
    if t1.end.Aborted? {
      // The call that failed in t1 is also the n-th call of t2, so t2
      // cannot have gone past it.
      var n := |t1.calls| - 1;
      assert CallEvents(t1.calls)[n] == t1.end.at;
      assert t2.calls[n].event == CallEvents(t2.calls)[n] == t1.end.at;
      assert outcomes[t2.calls[n].event] == ProcessError;
    }
  }

  /** Reading an event that is not handed to the processor (a failed item,
      a non-block response, or any event for another module) leaves the
      height and the calls as they were, and the loop goes on. */
  lemma SkippedEventChangesNothing(moduleName: string, start: nat, events: seq<StreamEvent>,
                                   outcomes: seq<ProcessResult>, t: Trace, e: StreamEvent, o: ProcessResult)
    requires ValidTrace(moduleName, start, events, outcomes, t) && t.end.Consumed?
    requires !Handled(moduleName, e)
    ensures ValidTrace(moduleName, start, events + [e], outcomes + [o], t)
  {
    AppendKeepsEligible(moduleName, events, e);
    forall k | 0 <= k < |t.calls| ensures (outcomes + [o])[t.calls[k].event] == outcomes[t.calls[k].event] {
      assert t.calls[k].event == CallEvents(t.calls)[k];
    }
  }

  /** Helper of the two lemmas below: handing a new block over at the
      current height extends the calls correctly whatever the answer. */
  lemma HandledAppend(moduleName: string, start: nat, events: seq<StreamEvent>,
                      outcomes: seq<ProcessResult>, t: Trace, e: StreamEvent, o: ProcessResult)
    requires ValidTrace(moduleName, start, events, outcomes, t) && t.end.Consumed?
    requires Handled(moduleName, e)
    ensures var calls' := t.calls + [Call(|events|, t.height)];
      && CallEvents(calls') == Eligible(moduleName, events + [e], |events| + 1)
      && (forall k :: 0 <= k < |calls'| ==> calls'[k].height == start + k)
      && (forall k :: 0 <= k < |t.calls| ==> calls'[k].event < |outcomes + [o]| && (outcomes + [o])[calls'[k].event] == Processed)
  {
    var calls' := t.calls + [Call(|events|, t.height)];
    AppendKeepsEligible(moduleName, events, e);
    assert calls'[..|calls'| - 1] == t.calls;
    forall k | 0 <= k < |t.calls|
      ensures calls'[k].event < |outcomes + [o]| && (outcomes + [o])[calls'[k].event] == Processed
    {
      assert calls'[k] == t.calls[k];
    }
  }

  /** Reading a new block that the processor accepts hands it over at the
      current height and advances the height by exactly one. */
  lemma ProcessedBlockAdvancesByOne(moduleName: string, start: nat, events: seq<StreamEvent>,
                                    outcomes: seq<ProcessResult>, t: Trace, e: StreamEvent)
    requires ValidTrace(moduleName, start, events, outcomes, t) && t.end.Consumed?
    requires Handled(moduleName, e)
    ensures ValidTrace(moduleName, start, events + [e], outcomes + [Processed],
                       Trace(Consumed, t.height + 1, t.calls + [Call(|events|, t.height)]))
  {
    HandledAppend(moduleName, start, events, outcomes, t, e, Processed);
    assert Stop(Trace(Consumed, t.height + 1, t.calls + [Call(|events|, t.height)]), events + [e]) == |events| + 1;
  }

  /** Reading a new block that the processor rejects hands it over at the
      current height, aborts the loop and leaves the height where it was. */
  lemma FailedBlockAbortsWithoutAdvance(moduleName: string, start: nat, events: seq<StreamEvent>,
                                        outcomes: seq<ProcessResult>, t: Trace, e: StreamEvent)
    requires ValidTrace(moduleName, start, events, outcomes, t) && t.end.Consumed?
    requires Handled(moduleName, e)
    ensures ValidTrace(moduleName, start, events + [e], outcomes + [ProcessError],
                       Trace(Aborted(|events|), t.height, t.calls + [Call(|events|, t.height)]))
  {
    HandledAppend(moduleName, start, events, outcomes, t, e, ProcessError);
    assert Stop(Trace(Aborted(|events|), t.height, t.calls + [Call(|events|, t.height)]), events + [e]) == |events| + 1;
  }

  /** The effect of reading the event at position `pos` on a loop that has
      not stopped yet. */
  function Step(moduleName: string, pos: nat, t: Trace, e: StreamEvent, o: ProcessResult): Trace {
    if !Handled(moduleName, e) then t
    else if o == Processed then Trace(Consumed, t.height + 1, t.calls + [Call(pos, t.height)])
    else Trace(Aborted(pos), t.height, t.calls + [Call(pos, t.height)])
  }

  /** One step of the loop keeps the trace valid for the events read so
      far. */
  lemma StepValid(moduleName: string, start: nat, events: seq<StreamEvent>,
                  outcomes: seq<ProcessResult>, t: Trace, e: StreamEvent, o: ProcessResult)
    requires ValidTrace(moduleName, start, events, outcomes, t) && t.end.Consumed?
    ensures ValidTrace(moduleName, start, events + [e], outcomes + [o], Step(moduleName, |events|, t, e, o))
  {
    if !Handled(moduleName, e) {
      SkippedEventChangesNothing(moduleName, start, events, outcomes, t, e, o);
    } else if o == Processed {
      ProcessedBlockAdvancesByOne(moduleName, start, events, outcomes, t, e);
    } else {
      FailedBlockAbortsWithoutAdvance(moduleName, start, events, outcomes, t, e);
    }
  }

  /** The loop as a recursive function: the trace left by reading the
      events from position i on, with the given height and calls so far. */
  function Run(moduleName: string, events: seq<StreamEvent>, outcomes: seq<ProcessResult>,
               i: nat, height: nat, calls: seq<Call>): Trace
    requires |outcomes| == |events| && i <= |events|
    decreases |events| - i
  {
    if i == |events| then Trace(Consumed, height, calls)
    else
      var next := Step(moduleName, i, Trace(Consumed, height, calls), events[i], outcomes[i]);
      if next.end.Aborted? then next else Run(moduleName, events, outcomes, i + 1, next.height, next.calls)
  }

  /** Continuing a valid trace over the first i events with Run gives a
      valid trace over all of them. */
  lemma {:induction false} RunValid(moduleName: string, start: nat, events: seq<StreamEvent>,
                                    outcomes: seq<ProcessResult>, i: nat, t: Trace)
    requires |outcomes| == |events| && i <= |events| && t.end.Consumed?
    requires ValidTrace(moduleName, start, events[..i], outcomes[..i], t)
    ensures ValidTrace(moduleName, start, events, outcomes, Run(moduleName, events, outcomes, i, t.height, t.calls))
    decreases |events| - i
  {
    if i == |events| {
      assert events[..i] == events && outcomes[..i] == outcomes;
    } else {
      StepValid(moduleName, start, events[..i], outcomes[..i], t, events[i], outcomes[i]);
      assert events[..i] + [events[i]] == events[..i + 1];
      assert outcomes[..i] + [outcomes[i]] == outcomes[..i + 1];
      var next := Step(moduleName, i, t, events[i], outcomes[i]);
      if next.end.Aborted? {
        AbortIgnoresLaterEvents(moduleName, start, events[..i + 1], outcomes[..i + 1], next, events, outcomes);
      } else {
        RunValid(moduleName, start, events, outcomes, i + 1, next);
      }
    }
  }

  /** After an abort no further event is consumed: whatever follows the
      failing event in the stream, the run is the same. */
  lemma AbortIgnoresLaterEvents(moduleName: string, start: nat, events: seq<StreamEvent>,
                                outcomes: seq<ProcessResult>, t: Trace,
                                events': seq<StreamEvent>, outcomes': seq<ProcessResult>)
    requires ValidTrace(moduleName, start, events, outcomes, t) && t.end.Aborted?
    requires |outcomes'| == |events'| && t.end.at < |events'|
    requires events'[..t.end.at + 1] == events[..t.end.at + 1]
    requires outcomes'[..t.end.at + 1] == outcomes[..t.end.at + 1]
    ensures ValidTrace(moduleName, start, events', outcomes', t)
  {
    var n := t.end.at + 1;
    EligibleReadsPrefix(moduleName, events, events', n);
    EligibleSound(moduleName, events, n);
    forall k | 0 <= k < |t.calls|
      ensures t.calls[k].event < n && outcomes'[t.calls[k].event] == outcomes[t.calls[k].event]
    {
      assert t.calls[k].event == CallEvents(t.calls)[k];
      assert outcomes'[t.calls[k].event] == outcomes'[..n][t.calls[k].event];
    }
  }

  /** Number of calls whose block the processor accepted. */
  function Successes(outcomes: seq<ProcessResult>, calls: seq<Call>): nat {
    if calls == [] then 0
    else Successes(outcomes, calls[..|calls| - 1])
         + (var e := calls[|calls| - 1].event; if e < |outcomes| && outcomes[e] == Processed then 1 else 0)
  }

  lemma {:induction false} SuccessesAll(outcomes: seq<ProcessResult>, calls: seq<Call>)
    requires forall k :: 0 <= k < |calls| ==> calls[k].event < |outcomes| && outcomes[calls[k].event] == Processed
    ensures Successes(outcomes, calls) == |calls|
  {
    if calls != [] {
      SuccessesAll(outcomes, calls[..|calls| - 1]);
    }
  }

  /** When the loop stops, the height is the start height plus the number
      of blocks the processor accepted. */
  lemma HeightCountsSuccesses(moduleName: string, start: nat, events: seq<StreamEvent>,
                              outcomes: seq<ProcessResult>, t: Trace)
    requires ValidTrace(moduleName, start, events, outcomes, t)
    ensures t.height == start + Successes(outcomes, t.calls)
  {
    if t.end.Consumed? {
      SuccessesAll(outcomes, t.calls);
    } else {
      SuccessesAll(outcomes, t.calls[..|t.calls| - 1]);
    }
  }

  /** The heights handed to the processor are contiguous, strictly
      increasing, and belong to events read in stream order. */
  lemma CallsInOrder(moduleName: string, start: nat, events: seq<StreamEvent>,
                     outcomes: seq<ProcessResult>, t: Trace, k: nat, l: nat)
    requires ValidTrace(moduleName, start, events, outcomes, t)
    requires k < l < |t.calls|
    ensures t.calls[k].height < t.calls[l].height && t.calls[k].event < t.calls[l].event
    ensures Handled(moduleName, events[t.calls[k].event])
  {
    EligibleSound(moduleName, events, Stop(t, events));
    assert t.calls[k].event == CallEvents(t.calls)[k];
    assert t.calls[l].event == CallEvents(t.calls)[l];
  }

  /** Every call, the last one included, hands over a new block of the
      block-output module read from the stream. */
  lemma CallsAreHandled(moduleName: string, start: nat, events: seq<StreamEvent>,
                        outcomes: seq<ProcessResult>, t: Trace)
    requires ValidTrace(moduleName, start, events, outcomes, t)
    ensures forall k :: 0 <= k < |t.calls| ==>
      t.calls[k].event < |events| && Handled(moduleName, events[t.calls[k].event])
  {
    EligibleSound(moduleName, events, Stop(t, events));
    forall k | 0 <= k < |t.calls|
      ensures t.calls[k].event < |events| && Handled(moduleName, events[t.calls[k].event])
    {
      assert t.calls[k].event == CallEvents(t.calls)[k];
    }
  }

  /** The loop reaches the end of the stream, and main returns `Ok(())`,
      exactly when no new block handed to the processor fails. */
  lemma ConsumedIffNoFailure(moduleName: string, start: nat, events: seq<StreamEvent>,
                             outcomes: seq<ProcessResult>, t: Trace)
    requires ValidTrace(moduleName, start, events, outcomes, t)
    ensures t.end.Consumed? <==>
      forall i :: 0 <= i < |events| && Handled(moduleName, events[i]) ==> outcomes[i] == Processed
  {
    if t.end.Consumed? {
      forall i | 0 <= i < |events| && Handled(moduleName, events[i]) ensures outcomes[i] == Processed {
        ConsumedProcessesEveryBlock(moduleName, start, events, outcomes, t, i);
        var k :| 0 <= k < |t.calls| && t.calls[k] == Call(i, t.calls[k].height);
        assert t.calls[k].event == i;
      }
    } else {
      CallsAreHandled(moduleName, start, events, outcomes, t);
      var last := t.calls[|t.calls| - 1];
      assert last.event == t.end.at && Handled(moduleName, events[last.event]);
    }
  }

  /** For any module other than the block-output one, new blocks are read
      but never processed: the loop runs to the end of the stream and the
      height never moves. */
  lemma OtherModuleNeverAdvances(moduleName: string, start: nat, events: seq<StreamEvent>,
                                 outcomes: seq<ProcessResult>, t: Trace)
    requires ValidTrace(moduleName, start, events, outcomes, t)
    requires moduleName != BlockOutputModule
    ensures t == Trace(Consumed, start, [])
  {
    EligibleOtherModuleEmpty(moduleName, events, Stop(t, events));
    assert |t.calls| == |CallEvents(t.calls)| == 0;
  }

  /** No event is eligible for a module other than the block-output one. */
  lemma {:induction false} EligibleOtherModuleEmpty(moduleName: string, events: seq<StreamEvent>, n: nat)
    requires n <= |events| && moduleName != BlockOutputModule
    ensures Eligible(moduleName, events, n) == []
  {
    if n > 0 {
      EligibleOtherModuleEmpty(moduleName, events, n - 1);
    }
  }

  /** A run that reaches the end of the stream hands every new block over
      when the module is the block-output one. */
  lemma ConsumedProcessesEveryBlock(moduleName: string, start: nat, events: seq<StreamEvent>,
                                    outcomes: seq<ProcessResult>, t: Trace, i: nat)
    requires ValidTrace(moduleName, start, events, outcomes, t) && t.end.Consumed?
    requires i < |events| && Handled(moduleName, events[i])
    ensures exists k :: 0 <= k < |t.calls| && t.calls[k] == Call(i, t.calls[k].height)
  {
    var e := Eligible(moduleName, events, |events|);
    EligibleComplete(moduleName, events, |events|, i);
    var k :| 0 <= k < |e| && e[k] == i;
    assert t.calls[k].event == CallEvents(t.calls)[k];
  }

  /** Worked scenario: module block_to_block_output, no stored height,
      three new blocks all accepted: heights 0, 1, 2 are processed and the
      counter ends at 3. */
  lemma ThreeBlocksFromScratch(t: Trace)
    requires ValidTrace(BlockOutputModule, 0, [Received(New("a")), Received(New("b")), Received(New("c"))],
                        [Processed, Processed, Processed], t)
    ensures t == Trace(Consumed, 3, [Call(0, 0), Call(1, 1), Call(2, 2)])
  {
    ThreeBlocksTrace();
    ValidTraceUnique(BlockOutputModule, 0, [Received(New("a")), Received(New("b")), Received(New("c"))],
                     [Processed, Processed, Processed], t, Trace(Consumed, 3, [Call(0, 0), Call(1, 1), Call(2, 2)]));
  }

  /** Helper of ThreeBlocksFromScratch: the expected trace is valid, built
      one event at a time. */
  lemma ThreeBlocksTrace()
    ensures ValidTrace(BlockOutputModule, 0, [Received(New("a")), Received(New("b")), Received(New("c"))],
                       [Processed, Processed, Processed], Trace(Consumed, 3, [Call(0, 0), Call(1, 1), Call(2, 2)]))
  {
    var events := [Received(New("a")), Received(New("b")), Received(New("c"))];
    var calls := [Call(0, 0), Call(1, 1), Call(2, 2)];
    assert Eligible(BlockOutputModule, events, 1) == [0];
    assert Eligible(BlockOutputModule, events, 2) == [0, 1];
    assert Eligible(BlockOutputModule, events, 3) == [0, 1, 2];
    assert calls[..2][..1] == [Call(0, 0)] && calls[..2] == [Call(0, 0), Call(1, 1)];
    assert CallEvents(calls) == [0, 1, 2];
  }
}
