/** The life of one Upload resource as a state machine at the granularity of API calls: controller runs
    on any number of nodes, cancel triggers from informer caches of any age, delete requests of the
    backup driver, lost and rejected patches, and crashes.

    An action carries what the environment decides (clock, call outcome, which cached value is seen);
    given the action, the step is a function. */
module UploadProtocol {
  import opened Common
  import opened Json
  import opened UploadResource

  type Node = string
  type Id = nat

  /** The identity of a cancel function: the node whose data mover made it, and a serial number there. */
  datatype Token = Token(node: Node, serial: nat)

  /** Which of the three places is deleting the local snapshot. */
  datatype Why = Leftover | Exhausted | AfterCopy

  /** The program counter of processUpload together with its in-memory copy. */
  datatype Run =
    | Getting
    | Patching(req: Upload, to: Phase, proceed: bool)
    | ReadyToCopy(req: Upload)
    | Copying(req: Upload, token: Token)
    | CopyDone(req: Upload)
    | Deleting(req: Upload, why: Why)

  /** triggerUploadCancellation between its IsUploading check and its CancelUpload call. */
  datatype Trigger = Trigger(node: Node, req: Upload, patched: bool)

  /** The cancel maps of all nodes at this PE ID, which copies were told to stop, and all copies ever registered. */
  datatype Cancels = Cancels(entry: map<Node, Token>, cancelled: set<Token>, issued: set<Token>)

  datatype History = History(
    everTerminal: bool,            // the stored phase has been terminal
    copied: bool,                  // a copy to the repository has succeeded
    exhausted: bool,               // a run saw RetryCount at or above the configured maximum
    copies: nat,                   // calls of CopyToRepo
    failedCopies: nat,             // calls of CopyToRepo that failed and were not cancelled
    failureWrites: nat)            // stored writes of UploadError or CleanupFailed

  datatype State = State(
    server: Option<Upload>,        // the stored resource; None once removed
    views: set<Upload>,            // every value an informer cache may show, however stale
    runs: map<Node, Run>,          // one worker per node
    cancels: Cancels,
    triggers: map<Id, Trigger>,
    deletes: map<Id, Upload>,      // delete requests that read a live upload and will patch it
    hist: History)

  datatype Event =
    | GetOk
    | Fails                                       // Get or repository lookup failed, or patch polling timed out
    | PatchAttempt(now: Time, msg: string, d: Delivery)
    | CopyRegister(token: Token)
    | CopyFailsEarly(max: Int32)                  // before the cancel function is registered
    | CopySucceeds
    | CopyIsCanceled
    | CopyFails(max: Int32)
    | Unregister
    | DeleteLocal(ok: bool)

  datatype Action =
    | StartRun(n: Node, view: Upload)
    | OfRun(n: Node, e: Event)
    | Crash(n: Node)
    | TriggerStart(id: Id, n: Node, view: Upload)
    | TriggerPatch(id: Id, now: Time, d: Delivery)
    | TriggerCancel(id: Id)
    | TriggerGivesUp(id: Id)
    | DeleteBegin(id: Id, answered: bool)
    | DeletePatch(id: Id, now: Time, d: Delivery)
    | RemoveResource(view: Upload)

  /** NewProtectedEntityIDFromString accepts the snapshot ID. */
  predicate Parses(u: Upload) { ':' in u.spec.snapshotID }

  predicate Startable(p: Phase)
  {
    p == Unset || p == New || p == InProgress || p == UploadError || p == CleanupFailed || p == Canceling
  }

  predicate Skipped(p: Phase)
  {
    p == Canceled || p == Canceling || p == Completed || p == FailedAfterRetry
  }

  /** deleteSnapshot goes on to delete the local and the remote snapshot. */
  predicate DeleteProceeds(s: State, answered: bool)
  {
    !answered || s.server.None? || Terminal(s.server.value.status.phase)
  }

  // ---------------------------------------------------------------------------------------------
  // Steps of a run
  // ---------------------------------------------------------------------------------------------

  predicate RunEnabled(s: State, run: Run, e: Event)
  {
    match e
    case GetOk => run.Getting? && s.server.Some?
    case Fails => run.Getting? || run.ReadyToCopy? || run.Patching?
    case PatchAttempt(_, _, _) => run.Patching? && Writable(run.to)
    case CopyRegister(token) => run.ReadyToCopy? && token !in s.cancels.issued
    case CopyFailsEarly(_) => run.ReadyToCopy?
    case CopySucceeds => run.Copying?
    case CopyIsCanceled => run.Copying? && run.token in s.cancels.cancelled
    case CopyFails(_) => run.Copying?
    case Unregister => run.CopyDone?
    case DeleteLocal(_) => run.Deleting?
  }

  /** From the InProgress write to the copy: parse the ID, then clean up or copy. */
  function Proceed(req: Upload): (r: Run)
  {
    if !Parses(req) then Patching(req, UploadError, false)
    else if req.status.phase == CleanupFailed then Deleting(req, Leftover)
    else ReadyToCopy(req)
  }

  /** After reading the stored object: nothing to do, mark in progress, or go straight on. */
  function AfterGet(u: Upload): (r: Option<Run>)
  {
    if Skipped(u.status.phase) then None
    else if u.status.phase != InProgress && u.status.phase != CleanupFailed then Some(Patching(u, InProgress, true))
    else Some(Proceed(u))
  }

  /** A copy failed and was not cancelled: retry later, or give up and clean up. */
  function AfterFailure(req: Upload, max: Int32): (r: Run)
  {
    if req.status.retryCount < max then Patching(req, UploadError, false) else Deleting(req, Exhausted)
  }

  function AfterDelete(why: Why, ok: bool): (to: Phase)
  {
    if !ok then CleanupFailed else if why == Exhausted then FailedAfterRetry else Completed
  }

  /** The stored object once this attempt has reached the server. */
  function PatchWrites(run: Run, n: Node, now: Time, msg: string, stored: Upload): (u: Upload)
    requires run.Patching? && Writable(run.to)
  {
    Patched(run.req, Mutated(run.req, run.to, now, n, msg), stored)
  }

  predicate Reaches(s: State, d: Delivery) { s.server.Some? && d != Refused }

  /** What the run does next; None when it is over. */
  function NextRun(s: State, n: Node, run: Run, e: Event): (r: Option<Run>)
    requires RunEnabled(s, run, e)
  {
    match e
    case GetOk => AfterGet(s.server.value)
    case Fails => None
    case PatchAttempt(now, msg, d) =>
      if !Reaches(s, d) || d == ReplyLost then
        Some(Patching(Mutated(run.req, run.to, now, n, msg), run.to, run.proceed))
      else if run.proceed then Some(Proceed(PatchWrites(run, n, now, msg, s.server.value)))
      else None
    case CopyRegister(token) => Some(Copying(run.req, token))
    case CopyFailsEarly(max) => Some(AfterFailure(run.req, max))
    case CopySucceeds => Some(CopyDone(run.req))
    case CopyIsCanceled => Some(Patching(run.req, Canceled, false))
    case CopyFails(max) => Some(AfterFailure(run.req, max))
    case Unregister => Some(Deleting(run.req, AfterCopy))
    case DeleteLocal(ok) => Some(Patching(run.req, AfterDelete(run.why, ok), false))
  }

  function NextServer(s: State, n: Node, run: Run, e: Event): (r: Option<Upload>)
    requires RunEnabled(s, run, e)
  {
    if e.PatchAttempt? && Reaches(s, e.d) then Some(PatchWrites(run, n, e.now, e.msg, s.server.value)) else s.server
  }

  function NextCancels(c: Cancels, n: Node, e: Event): (r: Cancels)
  {
    match e
    case CopyRegister(token) => c.(entry := c.entry[n := token], issued := c.issued + {token})
    case Unregister => c.(entry := c.entry - {n})
    case _ => c
  }

  function Failure(h: History, req: Upload, max: Int32): (r: History)
  {
    h.(failedCopies := h.failedCopies + 1, exhausted := h.exhausted || req.status.retryCount >= max)
  }

  function NextHistory(s: State, run: Run, e: Event, server': Option<Upload>): (r: History)
    requires RunEnabled(s, run, e)
  {
    var h := s.hist;
    match e
    case PatchAttempt(_, _, d) =>
      if !Reaches(s, d) then h
      else
        var counted := run.to == UploadError || run.to == CleanupFailed;
        h.(everTerminal := h.everTerminal || (server'.Some? && Terminal(server'.value.status.phase)),
           failureWrites := if counted then h.failureWrites + 1 else h.failureWrites)
    case CopyRegister(_) => h.(copies := h.copies + 1)
    case CopyFailsEarly(max) => Failure(h.(copies := h.copies + 1), run.req, max)
    case CopyFails(max) => Failure(h, run.req, max)
    case CopySucceeds => h.(copied := true)
    case _ => h
  }

  function DoRun(s: State, n: Node, e: Event): (r: State)
    requires n in s.runs && RunEnabled(s, s.runs[n], e)
  {
    var next := NextRun(s, n, s.runs[n], e);
    var server' := NextServer(s, n, s.runs[n], e);
    s.(server := server',
       views := if server'.Some? then s.views + {server'.value} else s.views,
       runs := if next.Some? then s.runs[n := next.value] else s.runs - {n},
       cancels := NextCancels(s.cancels, n, e),
       hist := NextHistory(s, s.runs[n], e, server'))
  }

  // ---------------------------------------------------------------------------------------------
  // Steps of the other actors
  // ---------------------------------------------------------------------------------------------

  function Store(s: State, u: Upload): (r: State)
  {
    s.(server := Some(u), views := s.views + {u},
       hist := s.hist.(everTerminal := s.hist.everTerminal || Terminal(u.status.phase)))
  }

  function DoTriggerPatch(s: State, id: Id, now: Time, d: Delivery): (r: State)
    requires id in s.triggers
  {
    var t := s.triggers[id];
    var req' := Mutated(t.req, Canceling, now, t.node, "Canceling on-going upload to repository.");
    // the copy is the informer's cached object itself
    var t' := Trigger(t.node, req', Reaches(s, d) && d == Accepted);
    var seen := s.(views := s.views + {req'}, triggers := s.triggers[id := t']);
    if Reaches(s, d) then Store(seen, Patched(t.req, req', s.server.value)) else seen
  }

  function DoDeletePatch(s: State, id: Id, now: Time, d: Delivery): (r: State)
    requires id in s.deletes
  {
    var req := s.deletes[id];
    var gone := s.(deletes := s.deletes - {id});
    if Reaches(s, d) then Store(gone, Patched(req, CancelRequested(req, now), s.server.value)) else gone
  }

  /** CancelUpload: call the registered cancel function, if any, and drop the entry. */
  function CancelEntry(c: Cancels, n: Node): (r: Cancels)
  {
    if n in c.entry then c.(cancelled := c.cancelled + {c.entry[n]}, entry := c.entry - {n}) else c
  }

  /** A node registers copies under tokens of its own. */
  predicate OwnToken(n: Node, e: Event) { e.CopyRegister? ==> e.token.node == n }

  predicate Enabled(s: State, a: Action)
  {
    match a
    case StartRun(n, view) =>
      n !in s.runs && view in s.views && Startable(view.status.phase) && !view.spec.uploadCancel
    case OfRun(n, e) => n in s.runs && RunEnabled(s, s.runs[n], e) && OwnToken(n, e)
    case Crash(_) => true
    case TriggerStart(id, n, view) =>
      && id !in s.triggers && view in s.views && view.spec.uploadCancel && Startable(view.status.phase)
      && Parses(view) && n in s.cancels.entry
    case TriggerPatch(id, _, _) => id in s.triggers && !s.triggers[id].patched
    case TriggerCancel(id) => id in s.triggers && s.triggers[id].patched
    case TriggerGivesUp(id) => id in s.triggers && !s.triggers[id].patched
    case DeleteBegin(id, _) => id !in s.deletes
    case DeletePatch(id, _, _) => id in s.deletes
    case RemoveResource(view) => view in s.views && view.status.phase == Completed
  }

  function Do(s: State, a: Action): (r: State)
    requires Enabled(s, a)
  {
    match a
    case StartRun(n, _) => s.(runs := s.runs[n := Getting])
    case OfRun(n, e) => DoRun(s, n, e)
    case Crash(n) =>
      s.(runs := s.runs - {n}, cancels := s.cancels.(entry := s.cancels.entry - {n}),
         triggers := map id | id in s.triggers && s.triggers[id].node != n :: s.triggers[id])
    case TriggerStart(id, n, view) => s.(triggers := s.triggers[id := Trigger(n, view, false)])
    case TriggerPatch(id, now, d) => DoTriggerPatch(s, id, now, d)
    case TriggerCancel(id) =>
      s.(triggers := s.triggers - {id}, cancels := CancelEntry(s.cancels, s.triggers[id].node))
    case TriggerGivesUp(id) => s.(triggers := s.triggers - {id})
    case DeleteBegin(id, answered) =>
      if DeleteProceeds(s, answered) then s else s.(deletes := s.deletes[id := s.server.value])
    case DeletePatch(id, now, d) => DoDeletePatch(s, id, now, d)
    case RemoveResource(_) => s.(server := None)
  }

  // ---------------------------------------------------------------------------------------------
  // Executions
  // ---------------------------------------------------------------------------------------------

  predicate Created(u: Upload)
  {
    u.status.phase == New && u.status.retryCount == 0 && !u.spec.uploadCancel && u.status.completion.None?
  }

  predicate Init(s: State)
  {
    && s.server.Some? && Created(s.server.value)
    && s == Fresh(s.server.value)
  }

  function Fresh(u: Upload): (s: State)
  {
    State(Some(u), {u}, map[], Cancels(map[], {}, {}), map[], map[], History(false, false, false, 0, 0, 0))
  }

  ghost predicate Execution(states: seq<State>, acts: seq<Action>)
  {
    && |states| == |acts| + 1
    && Init(states[0])
    && forall i :: 0 <= i < |acts| ==> Enabled(states[i], acts[i]) && states[i + 1] == Do(states[i], acts[i])
  }

  /** One more step. */
  lemma Extended(states: seq<State>, acts: seq<Action>, a: Action) returns (states': seq<State>, acts': seq<Action>)
    requires Execution(states, acts) && Enabled(states[|acts|], a)
    ensures Execution(states', acts') && states'[|acts'|] == Do(states[|acts|], a)
    ensures states' == states + [Do(states[|acts|], a)] && acts' == acts + [a]
  {
    states', acts' := states + [Do(states[|acts|], a)], acts + [a];
  }

  /** The lease makes runs exclusive: none starts while another is active. */
  ghost predicate LeaseHolds(states: seq<State>, acts: seq<Action>)
    requires |states| == |acts| + 1
  {
    forall i :: 0 <= i < |acts| ==> OneRun(states[i], acts[i])
  }

  predicate OneRun(s: State, a: Action) { a.StartRun? ==> s.runs == map[] }

  /** Status patches of runs get through at the first attempt. */
  ghost predicate FirstAttemptAccepted(states: seq<State>, acts: seq<Action>)
    requires |states| == |acts| + 1
  {
    forall i :: 0 <= i < |acts| ==> PatchesOnce(states[i], acts[i])
  }

  predicate PatchesOnce(s: State, a: Action)
  {
    && (a.OfRun? && a.e.PatchAttempt? ==> a.e.d == Accepted)
    && (a.OfRun? && a.e.Fails? && a.n in s.runs ==> !s.runs[a.n].Patching?)
  }

  /** Every reading of the configured retry maximum gives `max`. */
  ghost predicate FixedMaximum(acts: seq<Action>, max: Int32)
  {
    forall i :: 0 <= i < |acts| ==> ReadsMaximum(acts[i], max)
  }

  predicate ReadsMaximum(a: Action, max: Int32)
  {
    a.OfRun? && (a.e.CopyFails? || a.e.CopyFailsEarly?) ==> a.e.max == max
  }

  ghost predicate CrashFree(acts: seq<Action>) { forall i :: 0 <= i < |acts| ==> !acts[i].Crash? }

  /** The hypotheses of the retry accounting: exclusive runs, patches accepted at the first attempt, a fixed maximum.
      Crashes, stale caches, cancel triggers and delete requests may come at any point. */
  ghost predicate Orderly(states: seq<State>, acts: seq<Action>, max: Int32)
  {
    && Execution(states, acts) && LeaseHolds(states, acts)
    && FirstAttemptAccepted(states, acts) && FixedMaximum(acts, max)
  }

  predicate OrderlyStep(s: State, a: Action, max: Int32)
  {
    Enabled(s, a) && OneRun(s, a) && PatchesOnce(s, a) && ReadsMaximum(a, max)
  }

  lemma OrderlyExtended(states: seq<State>, acts: seq<Action>, a: Action, max: Int32)
    returns (states': seq<State>, acts': seq<Action>)
    requires Orderly(states, acts, max) && OrderlyStep(states[|acts|], a, max)
    ensures Orderly(states', acts', max) && states'[|acts'|] == Do(states[|acts|], a)
    ensures states' == states + [Do(states[|acts|], a)] && acts' == acts + [a]
  {
    states', acts' := Extended(states, acts, a);
  }
}
