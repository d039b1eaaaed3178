/** Status writes of the upload controller: one patch attempt on an in-memory copy, the polling loop
    around it, and what an accepted attempt does after earlier ones were rejected. */
module StatusPatch {
  import opened Common
  import opened Json
  import opened UploadResource

  /** The in-memory copy a caller hands over by reference; every attempt mutates it in place. */
  class UploadObject {
    var value: Upload

    constructor (u: Upload)
      ensures value == u
    {
      value := u;
    }
  }

  /** The environment of one attempt: the clock, what the server stores at that moment (nothing when
      the resource is gone), and whether the call gets through. */
  datatype Attempt = Attempt(now: Time, stored: Option<Upload>, reachable: bool) {
    predicate Accepted() { reachable && stored.Some? }
  }

  /** Marshal, mutate in place, marshal again, send the difference. */
  method PatchUpload(req: UploadObject, to: Phase, node: string, msg: string, at: Attempt)
    returns (patch: Json, updated: Option<Upload>)
    requires Writable(to)
    modifies req
    ensures req.value == Mutated(old(req.value), to, at.now, node, msg)
    ensures patch == Diff(UploadJson(old(req.value)), UploadJson(req.value))
    ensures updated.Some? <==> at.Accepted()
    ensures updated.Some? ==> UploadJson(updated.value) == Apply(patch, UploadJson(at.stored.value))
    ensures updated.Some? ==> updated.value == Patched(old(req.value), req.value, at.stored.value)
  {
    var before := req.value;
    var oldData := UploadJson(req.value);
    req.value := Mutated(req.value, to, at.now, node, msg);
    var newData := UploadJson(req.value);
    patch := Diff(oldData, newData);
    if at.Accepted() {
      updated := Some(Patched(before, req.value, at.stored.value));
      MergePatchIsFieldwise(before, req.value, at.stored.value);
    } else {
      updated := None;
    }
  }

  /** One attempt on the record level. */
  method PatchOnce(req: UploadObject, to: Phase, node: string, msg: string, at: Attempt)
    returns (updated: Option<Upload>)
    requires Writable(to)
    modifies req
    ensures req.value == Mutated(old(req.value), to, at.now, node, msg)
    ensures updated == if at.Accepted() then Some(Patched(old(req.value), req.value, at.stored.value)) else None
  {
    var _, answer := PatchUpload(req, to, node, msg, at);
    updated := answer;
  }

  /** The copy after one in-place mutation per clock reading. */
  function Iterated(u: Upload, to: Phase, times: seq<Time>, node: string, msg: string): (r: Upload)
    requires Writable(to)
  {
    if times == [] then u
    else Mutated(Iterated(u, to, times[..|times| - 1], node, msg), to, times[|times| - 1], node, msg)
  }

  function Times(attempts: seq<Attempt>): (r: seq<Time>)
    ensures |r| == |attempts| && forall i :: 0 <= i < |r| ==> r[i] == attempts[i].now
  {
    seq(|attempts|, i requires 0 <= i < |attempts| => attempts[i].now)
  }

  /** The stored object after attempt |times| is the first accepted one: the patch is the difference between the copy
      mutated once less and the copy mutated that often. */
  function Written(u: Upload, to: Phase, times: seq<Time>, node: string, msg: string, stored: Upload): (r: Upload)
    requires Writable(to) && times != []
  {
    Patched(Iterated(u, to, times[..|times| - 1], node, msg), Iterated(u, to, times, node, msg), stored)
  }

  /** patchUploadByStatusWithRetry: poll until one attempt is accepted or the budget is used up. */
  method PatchUploadByStatusWithRetry(req: UploadObject, to: Phase, node: string, msg: string, attempts: seq<Attempt>)
    returns (updated: Option<Upload>, made: nat)
    modifies req
    ensures made <= |attempts|
    ensures !Writable(to) ==> updated.None? && req.value == old(req.value)
    ensures Writable(to) ==> req.value == Iterated(old(req.value), to, Times(attempts[..made]), node, msg)
    ensures updated.None? && Writable(to) ==> made == |attempts|
    ensures updated.None? && Writable(to) ==> forall i :: 0 <= i < made ==> !attempts[i].Accepted()
    ensures updated.Some? ==>
              && Writable(to) && made > 0 && attempts[made - 1].Accepted()
              && (forall i :: 0 <= i < made - 1 ==> !attempts[i].Accepted())
              && updated.value == Written(old(req.value), to, Times(attempts[..made]), node, msg,
                                          attempts[made - 1].stored.value)
  {
    updated, made := None, 0;
    if !Writable(to) {
      // "Unexpected upload phase" on every attempt
      made := |attempts|;
      return;
    }
    ghost var times: seq<Time> := [];
    while made < |attempts|
      invariant made <= |attempts| && times == Times(attempts[..made])
      invariant forall i :: 0 <= i < made ==> !attempts[i].Accepted()
      invariant req.value == Iterated(old(req.value), to, times, node, msg)
    {
      var answer := PatchOnce(req, to, node, msg, attempts[made]);
      IteratedNext(old(req.value), to, times, attempts[made].now, node, msg);
      TimesNext(attempts, made);
      times := times + [attempts[made].now];
      made := made + 1;
      if answer.Some? { return answer, made; }
    }
  }

  lemma TimesNext(attempts: seq<Attempt>, made: nat)
    requires made < |attempts|
    ensures Times(attempts[..made + 1]) == Times(attempts[..made]) + [attempts[made].now]
  {}

  lemma IteratedNext(u: Upload, to: Phase, times: seq<Time>, now: Time, node: string, msg: string)
    requires Writable(to)
    ensures Iterated(u, to, times + [now], node, msg) == Mutated(Iterated(u, to, times, node, msg), to, now, node, msg)
    ensures forall stored :: Written(u, to, times + [now], node, msg, stored)
                             == Patched(Iterated(u, to, times, node, msg),
                                        Mutated(Iterated(u, to, times, node, msg), to, now, node, msg), stored)
  {
    assert (times + [now])[..|times|] == times;
  }

  // ---------------------------------------------------------------------------------------------
  // What the accepted attempt writes
  // ---------------------------------------------------------------------------------------------

  predicate Counting(to: Phase) { to == UploadError || to == CleanupFailed }

  /** Minutes to wait after `count` failures, as int32: a power of two, at most an hour. A count that has wrapped
      around to zero or below waits not at all, except the least one, whose predecessor is the greatest. */
  function Minutes(count: Int32): (m: int)
  {
    if count > 0 then Min(Pow2(count - 1), 60) else if count == MIN_INT32 then 60 else 0
  }

  lemma BackOffIsMinutes(count: Int32)
    ensures BackOff(count) == Minutes(count)
  {
    if count > MIN_INT32 {
      assert Wrap32(count - 1) == count - 1;
    } else {
      assert Wrap32(count - 1) == MAX_INT32;
      assert Pow2(MAX_INT32) > MAX_INT32;
    }
  }

  lemma OneFailure(u: Upload, to: Phase, now: Time, node: string, msg: string)
    requires Counting(to)
    ensures var count := Wrap32(u.status.retryCount + 1);
            Mutated(u, to, now, node, msg)
            == Upload(u.spec, Status(to, msg, u.status.start, Some(now), u.status.node, count,
                                     Some(now + 60 * Minutes(count)), Minutes(count)))
  {
    BackOffIsMinutes(Wrap32(u.status.retryCount + 1));
  }

  /** After any number of attempts to record a failure the copy shows the phase and message, the last clock reading as
      completion, the count of all attempts, and the next retry that many minutes after that reading. */
  lemma {:induction false} IteratedFailure(u: Upload, to: Phase, times: seq<Time>, node: string, msg: string)
    requires Counting(to) && times != []
    ensures var last, count := times[|times| - 1], Wrap32(u.status.retryCount + |times|);
            Iterated(u, to, times, node, msg)
            == Upload(u.spec, Status(to, msg, u.status.start, Some(last), u.status.node, count,
                                     Some(last + 60 * Minutes(count)), Minutes(count)))
    decreases |times|
  {
    var shorter := times[..|times| - 1];
    var before := Iterated(u, to, shorter, node, msg);
    OneFailure(before, to, times[|times| - 1], node, msg);
    if shorter == [] {
    } else {
      IteratedFailure(u, to, shorter, node, msg);
      Wrap32Step(u.status.retryCount + |shorter|);
    }
  }

  /** Marking an upload in progress sets phase and node, and for a new upload the start and a count of zero; repeating
      it changes nothing. */
  lemma {:induction false} IteratedInProgress(u: Upload, times: seq<Time>, node: string, msg: string)
    requires times != []
    ensures var st := u.status;
            Iterated(u, InProgress, times, node, msg)
            == Upload(u.spec, Status(InProgress, st.message, if st.phase == New then Some(times[0]) else st.start,
                                     st.completion, node, if st.phase == New then 0 else st.retryCount,
                                     st.nextRetry, st.backOff))
    decreases |times|
  {
    var shorter := times[..|times| - 1];
    if shorter == [] {
    } else {
      IteratedInProgress(u, shorter, node, msg);
    }
  }

  /** Every other phase comes with the last clock reading as completion and the message, and changes nothing else. */
  lemma {:induction false} IteratedEnd(u: Upload, to: Phase, times: seq<Time>, node: string, msg: string)
    requires to == Completed || to == Canceling || to == Canceled || to == FailedAfterRetry
    requires times != []
    ensures var st := u.status;
            Iterated(u, to, times, node, msg)
            == Upload(u.spec, Status(to, msg, st.start, Some(times[|times| - 1]), st.node, st.retryCount, st.nextRetry,
                                     st.backOff))
    decreases |times|
  {
    var shorter := times[..|times| - 1];
    if shorter == [] {
    } else {
      IteratedEnd(u, to, shorter, node, msg);
    }
  }

  lemma IteratedShape(u: Upload, to: Phase, times: seq<Time>, node: string, msg: string)
    requires Writable(to) && times != []
    ensures Iterated(u, to, times, node, msg).spec == u.spec && Iterated(u, to, times, node, msg).status.phase == to
  {
    if Counting(to) {
      IteratedFailure(u, to, times, node, msg);
    } else if to == InProgress {
      IteratedInProgress(u, times, node, msg);
    } else {
      IteratedEnd(u, to, times, node, msg);
    }
  }

  /** The accepted attempt, from the copies it is the difference of. */
  lemma WrittenPhase(u: Upload, to: Phase, times: seq<Time>, node: string, msg: string, stored: Upload)
    requires Writable(to) && times != []
    ensures var w := Written(u, to, times, node, msg, stored);
            && w.spec == stored.spec
            && w.status.phase == (if |times| == 1 && u.status.phase != to then to else stored.status.phase)
  {
    IteratedShape(u, to, times, node, msg);
    if |times| == 1 {
      assert times[..0] == [];
    } else {
      IteratedShape(u, to, times[..|times| - 1], node, msg);
    }
  }

  /** A failure stored at the first attempt: each field is the new one unless the copy already showed it. */
  lemma FirstFailureEffect(u: Upload, to: Phase, now: Time, node: string, msg: string, stored: Upload)
    requires Counting(to)
    ensures var w, count := Written(u, to, [now], node, msg, stored).status, Wrap32(u.status.retryCount + 1);
            && w.retryCount == count
            && w.nextRetry == Pick(u.status.nextRetry, Some(now + 60 * Minutes(count)), stored.status.nextRetry)
            && w.backOff == Pick(u.status.backOff, Minutes(count), stored.status.backOff)
            && w.completion == Pick(u.status.completion, Some(now), stored.status.completion)
            && w.message == Pick(u.status.message, msg, stored.status.message)
            && w.start == stored.status.start && w.node == stored.status.node
  {
    IteratedFailure(u, to, [now], node, msg);
    assert [now][..0] == [];
    Wrap32Step(u.status.retryCount);
  }

  /** The difference of two records of a failure that count differently. */
  lemma FailureDifference(u: Upload, to: Phase, msg: string, t0: Time, t1: Time, c0: Int32, c1: Int32, stored: Upload)
    requires c0 != c1
    ensures var a := Upload(u.spec, Status(to, msg, u.status.start, Some(t0), u.status.node, c0,
                                           Some(t0 + 60 * Minutes(c0)), Minutes(c0)));
            var b := Upload(u.spec, Status(to, msg, u.status.start, Some(t1), u.status.node, c1,
                                           Some(t1 + 60 * Minutes(c1)), Minutes(c1)));
            Patched(a, b, stored)
            == Upload(stored.spec,
                      Status(stored.status.phase, stored.status.message, stored.status.start,
                             Pick(Some(t0), Some(t1), stored.status.completion), stored.status.node, c1,
                             Pick(Some(t0 + 60 * Minutes(c0)), Some(t1 + 60 * Minutes(c1)), stored.status.nextRetry),
                             Pick(Minutes(c0), Minutes(c1), stored.status.backOff)))
  {}

  /** A failure stored at a later attempt: the count of all attempts and the times of the last one, against those of the
      attempt before it; everything else stays as it is. */
  lemma LaterFailureEffect(u: Upload, to: Phase, times: seq<Time>, node: string, msg: string, stored: Upload)
    requires Counting(to) && |times| > 1
    ensures var t0, t1 := times[|times| - 2], times[|times| - 1];
            var c0, c1 := Wrap32(u.status.retryCount + |times| - 1), Wrap32(u.status.retryCount + |times|);
            Written(u, to, times, node, msg, stored)
            == Upload(stored.spec,
                      Status(stored.status.phase, stored.status.message, stored.status.start,
                             Pick(Some(t0), Some(t1), stored.status.completion), stored.status.node, c1,
                             Pick(Some(t0 + 60 * Minutes(c0)), Some(t1 + 60 * Minutes(c1)), stored.status.nextRetry),
                             Pick(Minutes(c0), Minutes(c1), stored.status.backOff)))
  {
    var t0, t1 := times[|times| - 2], times[|times| - 1];
    var c0, c1 := Wrap32(u.status.retryCount + |times| - 1), Wrap32(u.status.retryCount + |times|);
    IteratedFailure(u, to, times, node, msg);
    IteratedFailure(u, to, times[..|times| - 1], node, msg);
    assert times[..|times| - 1][|times| - 2] == t0;
    Wrap32Step(u.status.retryCount + |times| - 1);
    FailureDifference(u, to, msg, t0, t1, c0, c1, stored);
  }

  /** The InProgress mark that is stored: a later attempt than the first stores nothing. */
  lemma AcceptedMarkEffect(u: Upload, times: seq<Time>, node: string, msg: string, stored: Upload)
    requires times != []
    ensures var w, started := Written(u, InProgress, times, node, msg, stored).status, u.status.phase == New;
            && (|times| > 1 ==> w == stored.status)
            && (|times| == 1 ==>
                  && w.node == (if u.status.node == node then stored.status.node else node)
                  && w.start == (if started && u.status.start != Some(times[0]) then Some(times[0])
                                 else stored.status.start)
                  && w.retryCount == (if started && u.status.retryCount != 0 then 0 else stored.status.retryCount)
                  && w.message == stored.status.message && w.completion == stored.status.completion
                  && w.nextRetry == stored.status.nextRetry && w.backOff == stored.status.backOff)
  {
    IteratedInProgress(u, times, node, msg);
    if |times| == 1 {
      assert times[..0] == [];
    } else {
      IteratedInProgress(u, times[..|times| - 1], node, msg);
    }
  }

  /** Any other end that is stored. */
  lemma AcceptedEndEffect(u: Upload, to: Phase, times: seq<Time>, node: string, msg: string, stored: Upload)
    requires to == Completed || to == Canceling || to == Canceled || to == FailedAfterRetry
    requires times != []
    ensures var w, last := Written(u, to, times, node, msg, stored).status, times[|times| - 1];
            var shownEnd := if |times| == 1 then u.status.completion else Some(times[|times| - 2]);
            && w.completion == (if shownEnd == Some(last) then stored.status.completion else Some(last))
            && w.message == (if |times| == 1 && u.status.message != msg then msg else stored.status.message)
            && w.start == stored.status.start && w.node == stored.status.node
            && w.retryCount == stored.status.retryCount && w.nextRetry == stored.status.nextRetry
            && w.backOff == stored.status.backOff
  {
    IteratedEnd(u, to, times, node, msg);
    if |times| == 1 {
      assert times[..0] == [];
    } else {
      IteratedEnd(u, to, times[..|times| - 1], node, msg);
    }
  }

  /** The phase reaches the server only with the first attempt, and then only if the copy showed another phase; a later
      accepted attempt leaves the stored phase and spec as they are. For the failure phases the stored retry count is
      the starting value plus the number of attempts, in int32, and the next retry is due 2^(count-1) minutes after the
      last clock reading, at most 60. */
  lemma AcceptedAttemptEffect(u: Upload, to: Phase, times: seq<Time>, node: string, msg: string, stored: Upload)
    requires Writable(to) && times != []
    ensures var w, last := Written(u, to, times, node, msg, stored), times[|times| - 1];
            var count := Wrap32(u.status.retryCount + |times|);
            && w.spec == stored.spec
            && w.status.phase == (if |times| == 1 && u.status.phase != to then to else stored.status.phase)
            && (Counting(to) ==> w.status.retryCount == count)
            && (Counting(to) && count > 0 && |times| == 1 && u.status.nextRetry == stored.status.nextRetry ==>
                  w.status.nextRetry == Some(last + 60 * Min(Pow2(count - 1), 60)))
            && (to != InProgress && |times| == 1 && u.status.completion == stored.status.completion ==>
                  w.status.completion == Some(last))
            && (to != InProgress && |times| == 1 && u.status.message == stored.status.message ==>
                  w.status.message == msg)
            && (to == InProgress && |times| == 1 && u.status.phase == New && u.status.start == stored.status.start ==>
                  w.status.start == Some(last))
            && (to == InProgress && |times| == 1 && u.status.node == stored.status.node ==> w.status.node == node)
            && (|times| > 1 ==> w.status.message == stored.status.message && w.status.node == stored.status.node
                                && w.status.start == stored.status.start)
            && (|times| > 1 && to == InProgress ==> w == stored)
            && (!Counting(to) && !(to == InProgress && |times| == 1 && u.status.phase == New) ==>
                  w.status.retryCount == stored.status.retryCount && w.status.nextRetry == stored.status.nextRetry
                  && w.status.backOff == stored.status.backOff)
  {
    WrittenPhase(u, to, times, node, msg, stored);
    if Counting(to) {
      if |times| == 1 {
        assert times == [times[0]];
        FirstFailureEffect(u, to, times[0], node, msg, stored);
      } else {
        LaterFailureEffect(u, to, times, node, msg, stored);
      }
    } else if to == InProgress {
      AcceptedMarkEffect(u, times, node, msg, stored);
    } else {
      AcceptedEndEffect(u, to, times, node, msg, stored);
    }
  }

  /** The reported success can therefore hide a lost phase: an upload whose first attempt to record
      completion was rejected stays in progress on the server after the second is accepted. */
  lemma SecondAttemptLosesThePhase(u: Upload, t0: Time, t1: Time)
    requires u.status.phase == InProgress
    ensures Written(u, Completed, [t0, t1], "node", "Upload completed", u).status.phase == InProgress
  {
    AcceptedAttemptEffect(u, Completed, [t0, t1], "node", "Upload completed", u);
  }
}
