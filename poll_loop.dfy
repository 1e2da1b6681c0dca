/** The program's control flow: the argument-count guard, the authentication check and the poll
    loop that runs one backup cycle after another until cancellation or a fatal error. The time,
    the operator's key press and the backend are not modelled; each loop iteration is described
    by a scripted Cycle instead. */
module PollLoop {
  import opened Wrappers

  /** The delay after a completed cycle or a transport fault, and the back-off after a rate-limit error. */
  const CycleDelayMs: nat := 10000
  const OverLimitDelayMs: nat := 60000

  /** How one `BackupVehicleData` call ends: normally, or with one of the exceptions the loop
      distinguishes. A failed file append surfaces as OtherException. */
  datatype Outcome =
    | Completed
    | InvalidApiOperation
    | WebServerInvokerJson
    | OverLimit
    | TaskCanceled
    | OtherException

  /** One loop iteration as seen from outside: whether cancellation was requested before the loop
      condition is checked, how the cycle ends, and whether cancellation is requested before the
      delay that follows it has elapsed. */
  datatype Cycle = Cycle(cancelled: bool, outcome: Outcome, cancelledInWait: bool)

  /** What the loop does, in order: start a cycle (fetch), or start a delay. */
  datatype Action = Fetch | Wait(ms: nat)

  /** Why the loop ended: the loop condition saw cancellation; a delay was cancelled (caught by the
      TaskCanceledException handler, or escaping from a catch handler's own delay); a cycle's
      exception made the loop return; or the script ran out. */
  datatype StopCause = CancelObserved | WaitCancelled(caught: bool) | Halted(outcome: Outcome) | ScriptEnded

  datatype LoopRun = LoopRun(trace: seq<Action>, stop: StopCause)

  /** What the catch ladder does with an outcome: return, or delay and go round again. */
  datatype Reaction = Halt | Retry(delayMs: nat)

  function Policy(o: Outcome): (r: Reaction)
    ensures r.Retry? <==> o == Completed || o == WebServerInvokerJson || o == OverLimit
    ensures r.Retry? ==> r.delayMs == (if o == OverLimit then OverLimitDelayMs else CycleDelayMs)
  {
    match o
    case Completed => Retry(CycleDelayMs)
    case WebServerInvokerJson => Retry(CycleDelayMs)
    case OverLimit => Retry(OverLimitDelayMs)
    case InvalidApiOperation => Halt
    case TaskCanceled => Halt
    case OtherException => Halt
  }

  /** A cycle after which the loop goes round again. */
  predicate Continues(c: Cycle) {
    !c.cancelled && Policy(c.outcome).Retry? && !c.cancelledInWait
  }

  /** The loop's behaviour on a script, as a specification. At most two actions per scripted
      cycle, and the script runs out only after every cycle was fetched and followed by its
      delay. */
  function Run(script: seq<Cycle>): (r: LoopRun)
    ensures |r.trace| <= 2 * |script|
    ensures r.stop == ScriptEnded ==> |r.trace| == 2 * |script|
    decreases |script|
  {
    if script == [] then LoopRun([], ScriptEnded)
    else if script[0].cancelled then LoopRun([], CancelObserved)
    else
      var c := script[0];
      match Policy(c.outcome)
      case Halt => LoopRun([Fetch], Halted(c.outcome))
      case Retry(ms) =>
        if c.cancelledInWait then LoopRun([Fetch, Wait(ms)], WaitCancelled(c.outcome == Completed))
        else
          var rest := Run(script[1..]);
          LoopRun([Fetch, Wait(ms)] + rest.trace, rest.stop)
  }

  /** Cycle j (counting from 0) was started: the trace reaches its fetch, action 2j. */
  predicate Started(r: LoopRun, j: nat) {
    2 * j < |r.trace|
  }

  /** The shape of every run: cycle j is fetched exactly when no earlier cycle stopped the loop
      and cancellation was not seen before it; its fetch is action 2j; a delay follows it exactly
      when its outcome is one the loop retries after, and that delay is the policy's. */
  lemma {:induction false} FetchSchedule(script: seq<Cycle>, j: nat)
    ensures 2 * j < |Run(script).trace| <==>
      j < |script| && !script[j].cancelled && forall i :: 0 <= i < j ==> Continues(script[i])
    ensures 2 * j < |Run(script).trace| ==> Run(script).trace[2 * j] == Fetch
    ensures 2 * j < |Run(script).trace| ==>
      (2 * j + 1 < |Run(script).trace| <==> Policy(script[j].outcome).Retry?)
    ensures 2 * j + 1 < |Run(script).trace| ==>
      Run(script).trace[2 * j + 1] == Wait(Policy(script[j].outcome).delayMs)
  {
    if script != [] && Continues(script[0]) && j > 0 {
      var rest := script[1..];
      FetchSchedule(rest, j - 1);
      var head := [Fetch, Wait(Policy(script[0].outcome).delayMs)];
      assert Run(script).trace == head + Run(rest).trace;
      if j < |script| {
        assert forall i :: 0 <= i < j - 1 ==> rest[i] == script[i + 1];
        assert forall i :: 1 <= i < j ==> script[i] == rest[i - 1];
      }
    }
  }

  /** No cycle starts once the loop condition has seen cancellation, and none after a delay that
      cancellation cut short. */
  lemma {:induction false} CancellationStopsFetching(script: seq<Cycle>, k: nat)
    requires k < |script|
    ensures script[k].cancelled ==> forall j: nat :: k <= j ==> !Started(Run(script), j)
    ensures script[k].cancelledInWait ==> forall j: nat :: k < j ==> !Started(Run(script), j)
  {
    forall j: nat | k <= j
      ensures script[k].cancelled ==> !Started(Run(script), j)
      ensures script[k].cancelledInWait && k < j ==> !Started(Run(script), j)
    {
      FetchSchedule(script, j);
    }
  }

  /** Between the fetches of cycles j and j+1 there is exactly one delay: 60 s when cycle j hit
      the rate limit, 10 s when it completed or met a transport fault; no other outcome is
      followed by a fetch. */
  lemma {:induction false} DelayBeforeNextFetch(script: seq<Cycle>, j: nat)
    requires Started(Run(script), j + 1)
    ensures j + 1 < |script|
    ensures script[j].outcome == Completed || script[j].outcome == WebServerInvokerJson || script[j].outcome == OverLimit
    ensures Run(script).trace[2 * j] == Fetch && Run(script).trace[2 * j + 2] == Fetch
    ensures Run(script).trace[2 * j + 1] == Wait(if script[j].outcome == OverLimit then OverLimitDelayMs else CycleDelayMs)
  {
    FetchSchedule(script, j);
    FetchSchedule(script, j + 1);
  }

  /** A cycle that ends in InvalidApiOperation, TaskCanceled or any other unclassified exception
      is the last one: nothing follows its fetch, and the loop reports that outcome. */
  lemma {:induction false} HaltingOutcomeEndsLoop(script: seq<Cycle>, j: nat)
    requires Started(Run(script), j)
    requires j < |script| && Policy(script[j].outcome).Halt?
    ensures |Run(script).trace| == 2 * j + 1
    ensures Run(script).stop == Halted(script[j].outcome)
  {
    FetchSchedule(script, j);
    if j > 0 {
      assert Continues(script[0]);
      var rest := script[1..];
      assert rest[j - 1] == script[j];
      FetchSchedule(rest, j - 1);
      HaltingOutcomeEndsLoop(rest, j - 1);
    }
  }

  /** The cycle at which the loop leaves: the first one after which it does not go round again,
      or the script's length when every cycle continues. */
  function StopIndex(script: seq<Cycle>): (j: nat)
    ensures j <= |script|
    ensures forall i :: 0 <= i < j ==> Continues(script[i])
    ensures j < |script| ==> !Continues(script[j])
  {
    if script == [] || !Continues(script[0]) then 0
    else
      var rest := StopIndex(script[1..]);
      assert forall i :: 1 <= i < |script| ==> script[i] == script[1..][i - 1];
      1 + rest
  }

  /** Why the loop stopped is decided by the cycle it leaves at. Cancellation seen by the loop
      condition stops it before that cycle's fetch. A retried cycle whose delay is cut short stops
      it after fetch and delay; the cancellation is caught only for the delay inside the try block,
      which follows a completed cycle. A halting outcome stops it after the fetch. The script runs
      out only when every cycle continued. */
  lemma {:induction false} StopCauses(script: seq<Cycle>)
    ensures var j, r := StopIndex(script), Run(script);
      && (r.stop == ScriptEnded <==> j == |script|)
      && (r.stop == CancelObserved <==> j < |script| && script[j].cancelled)
      && (r.stop == CancelObserved ==> |r.trace| == 2 * j)
      && (r.stop.WaitCancelled? <==>
            j < |script| && !script[j].cancelled && Policy(script[j].outcome).Retry? && script[j].cancelledInWait)
      && (r.stop.WaitCancelled? ==> r.stop.caught == (script[j].outcome == Completed) && |r.trace| == 2 * j + 2)
      && (r.stop.Halted? <==> j < |script| && !script[j].cancelled && Policy(script[j].outcome).Halt?)
      && (r.stop.Halted? ==> r.stop.outcome == script[j].outcome && |r.trace| == 2 * j + 1)
  {
    if script != [] && Continues(script[0]) {
      var rest := script[1..];
      StopCauses(rest);
      assert StopIndex(script) == StopIndex(rest) + 1;
      assert StopIndex(rest) < |rest| ==> rest[StopIndex(rest)] == script[StopIndex(script)];
    }
  }

  /** One step of Run, taken at position i of the script. */
  lemma {:induction false} RunAt(script: seq<Cycle>, i: nat)
    requires i < |script|
    ensures var c, r, next := script[i], Run(script[i..]), Run(script[i + 1..]);
      && (c.cancelled ==> r == LoopRun([], CancelObserved))
      && (!c.cancelled && Policy(c.outcome).Halt? ==> r == LoopRun([Fetch], Halted(c.outcome)))
      && (!c.cancelled && Policy(c.outcome).Retry? && c.cancelledInWait ==>
            r == LoopRun([Fetch, Wait(Policy(c.outcome).delayMs)], WaitCancelled(c.outcome == Completed)))
      && (Continues(c) ==> r == LoopRun([Fetch, Wait(Policy(c.outcome).delayMs)] + next.trace, next.stop))
  {
    assert script[i..][0] == script[i];
    assert script[i..][1..] == script[i + 1..];
  }

  /** One pass through the loop body once the loop condition let it in: the `try` block fetches
      and waits, and the catch ladder either waits and lets the loop go round again or returns.
      `exit` is None when the loop goes round again, otherwise why it stops. */
  method RunCycle(c: Cycle) returns (actions: seq<Action>, exit: Option<StopCause>)
    ensures Policy(c.outcome).Halt? ==> actions == [Fetch] && exit == Some(Halted(c.outcome))
    ensures Policy(c.outcome).Retry? ==> actions == [Fetch, Wait(Policy(c.outcome).delayMs)]
    ensures Policy(c.outcome).Retry? ==>
      exit == (if c.cancelledInWait then Some(WaitCancelled(c.outcome == Completed)) else None)
  {
    actions := [Fetch];
    match c.outcome {
      case Completed =>
        actions := actions + [Wait(CycleDelayMs)];
        exit := if c.cancelledInWait then Some(WaitCancelled(true)) else None;
      case InvalidApiOperation =>
        exit := Some(Halted(InvalidApiOperation));
      case WebServerInvokerJson =>
        actions := actions + [Wait(CycleDelayMs)];
        exit := if c.cancelledInWait then Some(WaitCancelled(false)) else None;
      case OverLimit =>
        actions := actions + [Wait(OverLimitDelayMs)];
        exit := if c.cancelledInWait then Some(WaitCancelled(false)) else None;
      case TaskCanceled =>
        exit := Some(Halted(TaskCanceled));
      case OtherException =>
        exit := Some(Halted(OtherException));
    }
  }

  /** The loop itself: a `while` over the scripted cycles whose body is one RunCycle. Its trace
      and stop cause are those of the specification Run. */
  method RunLoop(script: seq<Cycle>) returns (trace: seq<Action>, stop: StopCause)
    ensures LoopRun(trace, stop) == Run(script)
  {
    trace := [];
    var i := 0;
    while i < |script| && !script[i].cancelled
      invariant 0 <= i <= |script|
      invariant Run(script) == LoopRun(trace + Run(script[i..]).trace, Run(script[i..]).stop)
    {
      RunAt(script, i);
      ghost var next := Run(script[i + 1..]);
      ghost var before := trace;
      var actions, exit := RunCycle(script[i]);
      trace := trace + actions;
      if exit.Some? {
        return trace, exit.value;
      }
      assert trace + next.trace == before + (actions + next.trace);
      i := i + 1;
    }
    if i < |script| {
      RunAt(script, i);
      stop := CancelObserved;
    } else {
      assert script[i..] == [];
      stop := ScriptEnded;
    }
  }

  /** What the program does as a whole. */
  datatype ProgramRun = Usage | NotAuthenticated | Ran(trace: seq<Action>, stop: StopCause)

  /** The entry point: any argument count other than four prints the usage text and returns before
      authenticating; a failed authentication (no login result) returns before the loop; otherwise
      the loop runs. `loggedIn` stands for the outcome of the authentication call. */
  method RunProgram(args: seq<string>, loggedIn: bool, script: seq<Cycle>) returns (r: ProgramRun)
    ensures |args| != 4 <==> r == Usage
    ensures r == NotAuthenticated <==> |args| == 4 && !loggedIn
    ensures r.Ran? ==> r.trace == Run(script).trace && r.stop == Run(script).stop
    ensures |args| == 4 && loggedIn ==> r.Ran?
  {
    if |args| != 4 {
      return Usage;
    }
    if !loggedIn {
      return NotAuthenticated;
    }
    var trace, stop := RunLoop(script);
    r := Ran(trace, stop);
  }
}
