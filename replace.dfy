/** `replaceTracks` of src/app/replace.ts: every plan's inserts, issued
    highest position first, then the batched removal of its selected ids;
    the shared progress counter; and the list of plans that failed. The
    remote is reduced to which calls it accepts, and the plans, launched
    together in the source, are run one after the other in input order. */
module Replace {
  import opened Wrappers
  import opened Types
  import opened Pagination
  import Planner

  /** One call of `playlists.addItemsToPlaylist`: the playlist, the URIs
      to insert, and the zero-based index to insert them at. */
  datatype InsertCall = InsertCall(playlistId: string, uris: seq<string>, index: int)

  /** Which calls the remote accepts. */
  datatype ReplaceApi = ReplaceApi(insertOk: InsertCall -> bool, removeOk: RemoveCall -> bool)

  // ---------------------------------------------------------------------
  // One plan

  /** `s` back to front. */
  function Reversed<T>(s: seq<T>): (r: seq<T>)
    ensures |r| == |s|
  {
    seq(|s|, i requires 0 <= i < |s| => s[|s| - 1 - i])
  }

  /** The plan as the caller sees it afterwards: `newTracks.reverse()`
      reverses the plan's own array, nothing else changes. */
  function AfterReverse(plan: PlaylistSelection): PlaylistSelection {
    plan.(newTracks := Reversed(plan.newTracks))
  }

  /** The URI text of an insert: JavaScript renders an `undefined` id as "undefined". */
  function InsertUri(r: TrackInsert): string {
    TrackUri(match r.taylorsVersionId case Some(id) => id case None => "undefined")
  }

  /** The insert call for one entry: a single URI at index `position - 1`. */
  function InsertCallFor(playlistId: string, r: TrackInsert): InsertCall {
    InsertCall(playlistId, [InsertUri(r)], r.position - 1)
  }

  /** One insert call per entry of `order`, in that order. */
  function InsertCalls(playlistId: string, order: seq<TrackInsert>): seq<InsertCall> {
    seq(|order|, i requires 0 <= i < |order| => InsertCallFor(playlistId, order[i]))
  }

  /** The insert calls of a plan in issue order: `newTracks` back to
      front. Since `newTracks` is ascending by position, the inserts go
      highest position first: the issued indices strictly decrease. */
  function PlanInserts(plan: PlaylistSelection): (calls: seq<InsertCall>)
    ensures |calls| == |plan.newTracks|
    ensures forall k :: 0 <= k < |calls| ==> calls[k] == InsertCallFor(plan.id, plan.newTracks[|calls| - 1 - k])
    ensures AscendingByPosition(plan.newTracks) ==>
              forall i, j :: 0 <= i < j < |calls| ==> calls[i].index > calls[j].index
  {
    InsertCalls(plan.id, Reversed(plan.newTracks))
  }

  /** The removal calls of a plan: its selected ids in chunks of 100. */
  function Removals(plan: PlaylistSelection): seq<RemoveCall> {
    RemoveCalls(plan.id, Chunks(plan.stolenIdsToRemove, REMOVE_BATCH))
  }

  /** Whether the remote accepts every one of the removal calls. */
  function AllAccepted(ok: RemoveCall -> bool, calls: seq<RemoveCall>): (r: bool)
    ensures r <==> forall k :: 0 <= k < |calls| ==> ok(calls[k])
  {
    calls == [] || (ok(calls[0]) && AllAccepted(ok, calls[1..]))
  }

  /** How many leading calls the remote accepts: the index of the first
      rejected call, or the number of calls when none is rejected. */
  function FirstRejected(ok: InsertCall -> bool, calls: seq<InsertCall>): (k: nat)
    ensures k <= |calls|
    ensures forall j :: 0 <= j < k ==> ok(calls[j])
    ensures k < |calls| ==> !ok(calls[k])
  {
    if calls == [] || !ok(calls[0]) then 0 else 1 + FirstRejected(ok, calls[1..])
  }

  /** The accepted prefix is determined by where the first rejection is. */
  lemma FirstRejectedAt(ok: InsertCall -> bool, calls: seq<InsertCall>, k: nat)
    requires k <= |calls| && (forall j :: 0 <= j < k ==> ok(calls[j])) && (k < |calls| ==> !ok(calls[k]))
    ensures FirstRejected(ok, calls) == k
  {
  }

  /** The number of inserts of `plan` that succeed (`trackCounter` at the end). */
  function Accepted(api: ReplaceApi, plan: PlaylistSelection): (k: nat)
    ensures k <= |plan.newTracks|
  {
    FirstRejected(api.insertOk, PlanInserts(plan))
  }

  /** What replacing one plan does: the plan as given, how many of its
      inserts the remote accepts, and whether it accepts all of the plan's
      removal calls (they are only issued once every insert succeeded). */
  datatype PlanOutcome = PlanOutcome(plan: PlaylistSelection, accepted: nat, removalAccepted: bool) {
    /** Whether `replacePlaylist` throws. */
    predicate Failed() {
      accepted < |plan.newTracks| || !removalAccepted
    }

    /** Why `replacePlaylist` throws, if it does: the first rejected
        insert, or else a rejected removal chunk. */
    function Failure(): (f: Option<Failure>)
      ensures f.Some? <==> Failed()
    {
      if accepted < |plan.newTracks| then Some(InsertFailed(Reversed(plan.newTracks)[accepted].position))
      else if removalAccepted then None
      else Some(RemoveFailed)
    }

    /** The insert calls issued: the accepted ones and the first rejected one. */
    function Inserts(): seq<InsertCall> {
      PlanInserts(plan)[..if accepted < |plan.newTracks| then accepted + 1 else |plan.newTracks|]
    }

    /** The removal calls issued: all of them once every insert succeeded, none otherwise. */
    function Removes(): seq<RemoveCall> {
      if accepted >= |plan.newTracks| then Removals(plan) else []
    }
  }

  function OutcomeOf(api: ReplaceApi, plan: PlaylistSelection): (o: PlanOutcome)
    ensures o.plan == plan && o.accepted <= |plan.newTracks|
  {
    PlanOutcome(plan, Accepted(api, plan), AllAccepted(api.removeOk, Removals(plan)))
  }

  /** The progress reports of one plan started at counter `counter0`: one
      per accepted insert, then the `finally` report. */
  function PlanEvents(counter0: int, total: int, name: string, accepted: nat, n: nat): seq<Progress> {
    InsertReports(counter0, total, name, accepted) + [Progress(counter0 + n, total, name)]
  }

  /** The reports of the first `accepted` inserts: `++counter` each time. */
  function InsertReports(counter0: int, total: int, name: string, accepted: nat): (r: seq<Progress>)
    ensures |r| == accepted
  {
    if accepted == 0 then [] else InsertReports(counter0, total, name, accepted - 1) + [Progress(counter0 + accepted, total, name)]
  }

  /** The `j`-th report counts `j + 1` inserts past `counter0`. */
  lemma {:induction false} InsertReportsAt(counter0: int, total: int, name: string, accepted: nat)
    ensures forall j :: 0 <= j < accepted ==> InsertReports(counter0, total, name, accepted)[j] == Progress(counter0 + j + 1, total, name)
  {
    if accepted > 0 {
      InsertReportsAt(counter0, total, name, accepted - 1);
    }
  }

  /** A plan fails exactly when one of the calls it issued is rejected;
      removal is attempted only after every insert succeeded; a failed
      insert is the last call of the plan and its failure names the
      insert's position. */
  lemma PlanFailureCases(api: ReplaceApi, plan: PlaylistSelection)
    ensures var o := OutcomeOf(api, plan);
            && (o.Failure() == None
                <==> (forall c :: c in o.Inserts() ==> api.insertOk(c)) && (forall c :: c in o.Removes() ==> api.removeOk(c)))
            && (o.Removes() != [] ==> forall c :: c in o.Inserts() ==> api.insertOk(c))
            && (o.Failure().Some? && o.Failure().value.InsertFailed? ==>
                  && o.Removes() == []
                  && o.Inserts() != []
                  && !api.insertOk(o.Inserts()[|o.Inserts()| - 1])
                  && o.Inserts()[|o.Inserts()| - 1].index + 1 == o.Failure().value.position)
  {
    var o := OutcomeOf(api, plan);
    var k := o.accepted;
    var calls := PlanInserts(plan);
    if k < |calls| {
      assert o.Inserts()[k] == calls[k];
      assert o.Inserts()[k] in o.Inserts();
    } else {
      assert o.Inserts() == calls;
    }
  }

  /** `replacePlaylist(plan)`: `counter0` is the shared `counter` when it
      starts, and the returned `counter` is the value it leaves behind. */
  method ReplacePlaylist(api: ReplaceApi, plan: PlaylistSelection, total: int, counter0: int)
    returns (failure: Option<Failure>, counter: int, events: seq<Progress>,
             inserts: seq<InsertCall>, removes: seq<RemoveCall>, after: PlaylistSelection)
    ensures after == AfterReverse(plan)
    ensures var o := OutcomeOf(api, plan);
            && inserts == o.Inserts() && removes == o.Removes() && failure == o.Failure()
            && counter == counter0 + o.accepted
            && events == PlanEvents(counter0, total, plan.name, o.accepted, |plan.newTracks|)
  {
    var order := Reversed(plan.newTracks);
    after := plan.(newTracks := order);
    var trackCounter;
    failure, trackCounter, counter, events, inserts := InsertInOrder(api.insertOk, plan.id, plan.name, order, total, counter0);
    assert trackCounter == Accepted(api, plan);
    removes := [];
    if failure == None {
      var ok;
      removes, ok := RemoveItemsFromPlaylist(api.removeOk, plan.id, plan.stolenIdsToRemove);
      if !ok {
        failure := Some(RemoveFailed);
      }
    }
    assert counter - trackCounter + |after.newTracks| == counter0 + |plan.newTracks|;
    events := events + [Progress(counter - trackCounter + |after.newTracks|, total, plan.name)];
  }

  /** The `for` loop of `replacePlaylist`: one insert per entry of
      `order`, each counted and reported once it succeeded, stopping at
      the first rejected one. */
  method InsertInOrder(ok: InsertCall -> bool, playlistId: string, name: string, order: seq<TrackInsert>, total: int, counter0: int)
    returns (failure: Option<Failure>, trackCounter: nat, counter: int, events: seq<Progress>, inserts: seq<InsertCall>)
    ensures trackCounter == FirstRejected(ok, InsertCalls(playlistId, order)) && counter == counter0 + trackCounter
    ensures trackCounter < |order| ==> inserts == InsertCalls(playlistId, order)[..trackCounter + 1]
    ensures trackCounter == |order| ==> inserts == InsertCalls(playlistId, order)
    ensures failure == if trackCounter < |order| then Some(InsertFailed(order[trackCounter].position)) else None
    ensures events == InsertReports(counter0, total, name, trackCounter)
  {
    ghost var calls := InsertCalls(playlistId, order);
    trackCounter := 0;
    counter := counter0;
    events, inserts := [], [];
    failure := None;
    while trackCounter < |order|
      invariant trackCounter <= |order| && counter == counter0 + trackCounter
      invariant forall j :: 0 <= j < trackCounter ==> ok(calls[j])
      invariant failure == None && inserts == calls[..trackCounter]
      invariant events == InsertReports(counter0, total, name, trackCounter)
    {
      var call := InsertCallFor(playlistId, order[trackCounter]);
      assert calls[..trackCounter + 1] == calls[..trackCounter] + [call];
      inserts := inserts + [call];
      if !ok(call) {
        failure := Some(InsertFailed(order[trackCounter].position));
        break;
      }
      trackCounter := trackCounter + 1;
      counter := counter + 1;
      events := events + [Progress(counter, total, name)];
    }
    assert trackCounter == |order| ==> inserts == calls;
    FirstRejectedAt(ok, calls, trackCounter);
  }

  // ---------------------------------------------------------------------
  // All plans

  /** The outcomes of the plans, in input order. */
  function Outcomes(api: ReplaceApi, plans: seq<PlaylistSelection>): seq<PlanOutcome> {
    MapSeq((plan: PlaylistSelection) => OutcomeOf(api, plan), plans)
  }

  /** `f` applied to each element, in order. */
  function MapSeq<A, B>(f: A -> B, xs: seq<A>): seq<B> {
    if xs == [] then [] else MapSeq(f, xs[..|xs| - 1]) + [f(xs[|xs| - 1])]
  }

  lemma {:induction false} MapSeqAt<A, B>(f: A -> B, xs: seq<A>)
    ensures |MapSeq(f, xs)| == |xs|
    ensures forall i :: 0 <= i < |xs| ==> MapSeq(f, xs)[i] == f(xs[i])
    decreases |xs|
  {
    if xs != [] {
      var n := |xs| - 1;
      MapSeqAt(f, xs[..n]);
      assert forall i :: 0 <= i < n ==> xs[..n][i] == xs[i];
    }
  }

  /** The shared `counter` after the given outcomes. */
  function Counter(outs: seq<PlanOutcome>): nat {
    if outs == [] then 0 else Counter(outs[..|outs| - 1]) + outs[|outs| - 1].accepted
  }

  /** Every progress report of the run, in order: each plan's reports
      start from the counter the earlier plans left. */
  function RunEvents(outs: seq<PlanOutcome>, total: int): seq<Progress> {
    if outs == [] then []
    else
      var n := |outs| - 1;
      RunEvents(outs[..n], total)
      + PlanEvents(Counter(outs[..n]), total, outs[n].plan.name, outs[n].accepted, |outs[n].plan.newTracks|)
  }

  /** The error entry of one outcome, if it failed. */
  function ErrorOf(o: PlanOutcome): seq<ReplaceError> {
    if o.Failed() then [ReplaceError(AfterReverse(o.plan), o.Failure().value)] else []
  }

  /** The failed plans, in input order, each with its reason. */
  function Errors(outs: seq<PlanOutcome>): seq<ReplaceError> {
    if outs == [] then [] else Errors(outs[..|outs| - 1]) + ErrorOf(outs[|outs| - 1])
  }

  /** The indices of the failed plans, ascending. */
  function FailedIndices(outs: seq<PlanOutcome>): seq<nat> {
    if outs == [] then []
    else
      var n := |outs| - 1;
      FailedIndices(outs[..n]) + (if outs[n].Failed() then [n] else [])
  }

  function InsertLog(outs: seq<PlanOutcome>): seq<InsertCall> {
    if outs == [] then [] else InsertLog(outs[..|outs| - 1]) + outs[|outs| - 1].Inserts()
  }

  function RemoveLog(outs: seq<PlanOutcome>): seq<RemoveCall> {
    if outs == [] then [] else RemoveLog(outs[..|outs| - 1]) + outs[|outs| - 1].Removes()
  }

  /** The caller's plans after the run. */
  function Afters(outs: seq<PlanOutcome>): seq<PlaylistSelection> {
    MapSeq((o: PlanOutcome) => AfterReverse(o.plan), outs)
  }

  /** `replaceTracks(plans)`: `total` is the number of inserts over all
      plans; `after` is the caller's plans once the calls are done. */
  method ReplaceTracks(api: ReplaceApi, plans: seq<PlaylistSelection>)
    returns (errors: seq<ReplaceError>, progress: seq<Progress>, inserts: seq<InsertCall>,
             removes: seq<RemoveCall>, after: seq<PlaylistSelection>)
    ensures after == Afters(Outcomes(api, plans))
    ensures errors == Errors(Outcomes(api, plans))
    ensures progress == RunEvents(Outcomes(api, plans), Planner.TotalInserts(plans))
    ensures inserts == InsertLog(Outcomes(api, plans)) && removes == RemoveLog(Outcomes(api, plans))
  {
    var total := Planner.TotalInserts(plans);
    var counter := 0;
    errors, progress, inserts, removes, after := [], [], [], [], [];
    ghost var outs: seq<PlanOutcome> := [];
    var i := 0;
    while i < |plans|
      invariant 0 <= i <= |plans|
      invariant outs == Outcomes(api, plans[..i])
      invariant counter == Counter(outs) && errors == Errors(outs) && progress == RunEvents(outs, total)
      invariant inserts == InsertLog(outs) && removes == RemoveLog(outs) && after == Afters(outs)
    {
      var plan := plans[i];
      var failure, counter', events, ins, rems, plan' := ReplacePlaylist(api, plan, total, counter);
      ghost var o := OutcomeOf(api, plan);
      assert plans[..i + 1][..i] == plans[..i];
      assert (outs + [o])[..|outs|] == outs;
      outs := outs + [o];
      counter := counter';
      progress := progress + events;
      inserts := inserts + ins;
      removes := removes + rems;
      after := after + [plan'];
      errors := errors + (if failure.Some? then [ReplaceError(plan', failure.value)] else []);
      i := i + 1;
    }
    assert plans[..i] == plans;
  }

  // ---------------------------------------------------------------------
  // Properties of a run

  /** Each outcome accepted at most its plan's inserts. */
  ghost predicate Consistent(outs: seq<PlanOutcome>) {
    forall i :: 0 <= i < |outs| ==> outs[i].accepted <= |outs[i].plan.newTracks|
  }

  /** The number of inserts over the outcomes' plans. */
  function Total(outs: seq<PlanOutcome>): nat {
    if outs == [] then 0 else Total(outs[..|outs| - 1]) + |outs[|outs| - 1].plan.newTracks|
  }

  /** Outcome `i` is the outcome of plan `i`; the outcomes are consistent
      and count the same inserts as the plans. */
  lemma OutcomesAt(api: ReplaceApi, plans: seq<PlaylistSelection>)
    ensures |Outcomes(api, plans)| == |plans|
    ensures forall i :: 0 <= i < |plans| ==> Outcomes(api, plans)[i] == OutcomeOf(api, plans[i])
    ensures Consistent(Outcomes(api, plans))
    ensures Total(Outcomes(api, plans)) == Planner.TotalInserts(plans)
  {
    MapSeqAt((plan: PlaylistSelection) => OutcomeOf(api, plan), plans);
    TotalOfPlans(Outcomes(api, plans), plans);
  }

  /** Outcomes of the given plans count the plans' inserts. */
  lemma {:induction false} TotalOfPlans(outs: seq<PlanOutcome>, plans: seq<PlaylistSelection>)
    requires |outs| == |plans| && forall i :: 0 <= i < |plans| ==> outs[i].plan == plans[i]
    ensures Total(outs) == Planner.TotalInserts(plans)
    decreases |plans|
  {
    if plans != [] {
      var n := |plans| - 1;
      TotalOfPlans(outs[..n], plans[..n]);
    }
  }

  /** Each plan is left with its `newTracks` reversed and nothing else changed. */
  lemma PlansAfterRun(api: ReplaceApi, plans: seq<PlaylistSelection>)
    ensures |Afters(Outcomes(api, plans))| == |plans|
    ensures forall i :: 0 <= i < |plans| ==>
              Afters(Outcomes(api, plans))[i] == plans[i].(newTracks := Reversed(plans[i].newTracks))
  {
    OutcomesAt(api, plans);
    MapSeqAt((o: PlanOutcome) => AfterReverse(o.plan), Outcomes(api, plans));
  }

  /** The counter never exceeds the number of inserts, and reaches it
      exactly when every insert of every plan succeeded. */
  lemma {:induction false} CounterBounded(outs: seq<PlanOutcome>)
    requires Consistent(outs)
    ensures Counter(outs) <= Total(outs)
    ensures Counter(outs) == Total(outs) <==> forall i :: 0 <= i < |outs| ==> outs[i].accepted == |outs[i].plan.newTracks|
    decreases |outs|
  {
    if outs != [] {
      var n := |outs| - 1;
      assert forall i :: 0 <= i < n ==> outs[..n][i] == outs[i];
      CounterBounded(outs[..n]);
    }
  }

  /** Each plan reports once per accepted insert plus once in `finally`. */
  lemma {:induction false} EventCount(outs: seq<PlanOutcome>, total: int)
    ensures |RunEvents(outs, total)| == Counter(outs) + |outs|
    decreases |outs|
  {
    if outs != [] {
      EventCount(outs[..|outs| - 1], total);
    }
  }

  /** Every report of a run carries `total` and a current value between 0
      and `total`. */
  lemma {:induction false} EventsWithinTotal(outs: seq<PlanOutcome>, total: int)
    requires Consistent(outs) && Total(outs) <= total
    ensures forall e :: e in RunEvents(outs, total) ==> e.total == total && 0 <= e.current <= total
    decreases |outs|
  {
    if outs != [] {
      var n := |outs| - 1;
      assert forall i :: 0 <= i < n ==> outs[..n][i] == outs[i];
      EventsWithinTotal(outs[..n], total);
      CounterBounded(outs[..n]);
      InsertReportsAt(Counter(outs[..n]), total, outs[n].plan.name, outs[n].accepted);
    }
  }

  /** The `finally` report of the last plan reaches the number of inserts
      as soon as every earlier plan's inserts all succeeded, whatever the
      last plan's own calls did. */
  lemma LastReportComplete(outs: seq<PlanOutcome>, total: int)
    requires outs != [] && Consistent(outs)
    requires forall i :: 0 <= i < |outs| - 1 ==> outs[i].accepted == |outs[i].plan.newTracks|
    ensures var events := RunEvents(outs, total);
            events != [] && events[|events| - 1] == Progress(Total(outs), total, outs[|outs| - 1].plan.name)
  {
    var n := |outs| - 1;
    assert forall i :: 0 <= i < n ==> outs[..n][i] == outs[i];
    CounterBounded(outs[..n]);
  }

  /** The progress reports are not monotone: the `finally` report of a
      plan whose first insert fails counts all of its inserts, but
      `counter` is not advanced, so the next plan reports a smaller value. */
  lemma ProgressCanDecrease()
    ensures var a := PlaylistSelection("a", "A", "", ["x"], [TrackInsert(1, Some("y")), TrackInsert(2, Some("z"))]);
            var b := PlaylistSelection("b", "B", "", ["x"], [TrackInsert(1, Some("y"))]);
            var events := RunEvents([PlanOutcome(a, 0, true), PlanOutcome(b, 1, true)], 3);
            |events| == 3 && events[0].current == 2 && events[1].current == 1
  {
    var a := PlaylistSelection("a", "A", "", ["x"], [TrackInsert(1, Some("y")), TrackInsert(2, Some("z"))]);
    var b := PlaylistSelection("b", "B", "", ["x"], [TrackInsert(1, Some("y"))]);
    var outs := [PlanOutcome(a, 0, true), PlanOutcome(b, 1, true)];
    assert outs[..1] == [outs[0]];
    assert outs[..1][..0] == [];
    assert Counter(outs[..1]) == 0;
    assert RunEvents(outs[..1], 3) == [Progress(2, 3, "A")];
    assert RunEvents(outs, 3) == [Progress(2, 3, "A")] + PlanEvents(0, 3, "B", 1, 1);
  }

  /** The failed indices are exactly the failed outcomes, ascending. */
  lemma FailedIndicesExact(outs: seq<PlanOutcome>)
    ensures forall i :: i in FailedIndices(outs) <==> 0 <= i < |outs| && outs[i].Failed()
    ensures forall k, l :: 0 <= k < l < |FailedIndices(outs)| ==> FailedIndices(outs)[k] < FailedIndices(outs)[l]
    ensures forall k :: 0 <= k < |FailedIndices(outs)| ==> FailedIndices(outs)[k] < |outs|
  {
    FailedIndicesMembers(outs);
    FailedIndicesAscending(outs);
  }

  lemma {:induction false} FailedIndicesMembers(outs: seq<PlanOutcome>)
    ensures forall i :: i in FailedIndices(outs) <==> 0 <= i < |outs| && outs[i].Failed()
    decreases |outs|
  {
    if outs != [] {
      var n := |outs| - 1;
      FailedIndicesMembers(outs[..n]);
      assert forall i :: 0 <= i < n ==> outs[..n][i] == outs[i];
    }
  }

  lemma {:induction false} FailedIndicesAscending(outs: seq<PlanOutcome>)
    ensures forall k, l :: 0 <= k < l < |FailedIndices(outs)| ==> FailedIndices(outs)[k] < FailedIndices(outs)[l]
    ensures forall k :: 0 <= k < |FailedIndices(outs)| ==> FailedIndices(outs)[k] < |outs|
    decreases |outs|
  {
    if outs != [] {
      var n := |outs| - 1;
      FailedIndicesAscending(outs[..n]);
      var idx := FailedIndices(outs[..n]);
      var extra: seq<nat> := if outs[n].Failed() then [n] else [];
      assert FailedIndices(outs) == idx + extra;
      assert forall k :: 0 <= k < |idx| ==> (idx + extra)[k] == idx[k];
    }
  }

  /** The errors are exactly the failed plans, in input order: error `k`
      is the plan at the `k`-th failed index, as reversed, with its failure. */
  lemma {:induction false} ErrorsExact(outs: seq<PlanOutcome>)
    ensures |Errors(outs)| == |FailedIndices(outs)|
    ensures forall k :: 0 <= k < |FailedIndices(outs)| ==>
              FailedIndices(outs)[k] < |outs|
              && outs[FailedIndices(outs)[k]].Failure().Some?
              && Errors(outs)[k] == ReplaceError(AfterReverse(outs[FailedIndices(outs)[k]].plan),
                                                 outs[FailedIndices(outs)[k]].Failure().value)
    decreases |outs|
  {
    if outs != [] {
      var n := |outs| - 1;
      var ps := outs[..n];
      ErrorsExact(ps);
      var idx, errs := FailedIndices(ps), Errors(ps);
      var extra := if outs[n].Failure().Some? then [n] else [];
      assert FailedIndices(outs) == idx + extra;
      assert Errors(outs) == errs + ErrorOf(outs[n]);
      forall k | 0 <= k < |idx + extra|
        ensures (idx + extra)[k] < |outs| && outs[(idx + extra)[k]].Failure().Some?
                && (errs + ErrorOf(outs[n]))[k]
                   == ReplaceError(AfterReverse(outs[(idx + extra)[k]].plan), outs[(idx + extra)[k]].Failure().value)
      {
        if k < |idx| {
          assert ps[idx[k]] == outs[idx[k]];
        }
      }
    }
  }

  /** The errors of a run are exactly its failed plans, in input order,
      each reversed and paired with its reason; there are none exactly
      when every plan succeeded. */
  lemma RunErrors(api: ReplaceApi, plans: seq<PlaylistSelection>)
    ensures var outs := Outcomes(api, plans);
            && |Errors(outs)| == |FailedIndices(outs)|
            && (forall i :: i in FailedIndices(outs) <==> 0 <= i < |plans| && OutcomeOf(api, plans[i]).Failure().Some?)
            && (forall k, l :: 0 <= k < l < |FailedIndices(outs)| ==> FailedIndices(outs)[k] < FailedIndices(outs)[l])
            && (forall k :: 0 <= k < |FailedIndices(outs)| ==>
                  FailedIndices(outs)[k] < |plans|
                  && Errors(outs)[k] == ReplaceError(AfterReverse(plans[FailedIndices(outs)[k]]),
                                                     OutcomeOf(api, plans[FailedIndices(outs)[k]]).Failure().value))
            && (Errors(outs) == [] <==> forall i :: 0 <= i < |plans| ==> OutcomeOf(api, plans[i]).Failure() == None)
  {
    var outs := Outcomes(api, plans);
    OutcomesAt(api, plans);
    FailedIndicesExact(outs);
    ErrorsExact(outs);
    if Errors(outs) != [] {
      assert FailedIndices(outs)[0] in FailedIndices(outs);
    }
  }
}
