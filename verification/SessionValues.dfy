/**
 What a session remembers and how it ends: over every run a cookie opens the values that were saved last under its
 id, and a session that was marked or destroyed is never opened again.
 */
module SessionValues {
  import opened Wrappers
  import opened Sessions

  /** The id under which a save stores the values of its session object, if it stores them. */
  function StoresAs(w: World, step: Step): Option<string> {
    if !step.Save? || !step.copied || step.session >= |w.objects| || w.objects[step.session].marked then None
    else
      var id := w.objects[step.session].id;
      if id !in w.entries then Some(step.newId) else if w.entries[id].destroy then None else Some(id)
  }

  /** The values that the latest successful save under this id stored. */
  function LastSaved(steps: seq<Step>, id: string): Option<Values>
    decreases |steps|
  {
    if steps == [] then None
    else
      var n := |steps| - 1;
      match Exec(steps[..n])
      case None => None
      case Some(w) =>
        if StoresAs(w, steps[n]) == Some(id) then Some(w.objects[steps[n].session].values)
        else LastSaved(steps[..n], id)
  }

  lemma {:induction false} StepStores(w: World, step: Step, id: string)
    requires Apply(w, step).Some? && id in Apply(w, step).value.entries
    ensures var values := Apply(w, step).value.entries[id].values;
            if StoresAs(w, step) == Some(id) then values == w.objects[step.session].values
            else id in w.entries && values == w.entries[id].values
  {
  }

  /** Whatever opens, puts, marks and saves came before: an entry holds what the latest save of its id stored. */
  lemma {:induction false} EntryHoldsLastSaved(steps: seq<Step>, id: string)
    requires Exec(steps).Some? && id in Exec(steps).value.entries
    ensures LastSaved(steps, id) == Some(Exec(steps).value.entries[id].values)
    decreases |steps|
  {
    hide Apply, StoresAs;
    if steps != [] {
      var n := |steps| - 1;
      var w := Exec(steps[..n]).value;
      StepStores(w, steps[n], id);
      if StoresAs(w, steps[n]) != Some(id) {
        EntryHoldsLastSaved(steps[..n], id);
      }
    }
  }

  /**
   After every run a cookie that opens a session hands out exactly the values of the latest save under its id,
   and no cookie opens an id under which nothing was saved.
   */
  lemma {:induction false} CookieOpensLastSaved(steps: seq<Step>, id: string)
    requires Exec(steps).Some?
    ensures var w := Exec(steps).value;
            var next := Apply(w, OpenFromRequest(Some(id), true));
            && next.Some? && |next.value.objects| == |w.objects| + 1
            && var found := next.value.objects[|w.objects|];
               if id != "" && id in w.entries && !w.entries[id].destroy then
                 LastSaved(steps, id).Some? && found == Object(id, LastSaved(steps, id).value, false)
               else found == Object("", map[], false)
  {
    hide Exec, LastSaved;
    if id in Exec(steps).value.entries {
      EntryHoldsLastSaved(steps, id);
    }
  }

  /** Read back: the values set in a session before it is saved are what the next request with its cookie gets. */
  lemma {:induction false} SetSaveOpen(w: World, o: nat, values: Values, newId: string)
    requires o < |w.objects| && !w.objects[o].marked && newId != ""
    requires w.objects[o].id in w.entries ==> w.objects[o].id != ""
    ensures var set' := Apply(w, SetValues(o, values));
            && set'.Some? && set'.value.entries == w.entries && |set'.value.objects| == |w.objects|
            && var saved := Apply(set'.value, Save(o, newId, true));
               && saved.Some? && |saved.value.objects| == |w.objects|
               && var obj := saved.value.objects[o];
                  && obj.values == values
                  && (obj.marked <==> w.objects[o].id in w.entries && w.entries[w.objects[o].id].destroy)
                  && (!obj.marked ==>
                        var next := Apply(saved.value, OpenFromRequest(Some(obj.id), true));
                        && next.Some? && |next.value.objects| == |w.objects| + 1
                        && next.value.objects[|w.objects|] == Object(obj.id, values, false))
  {
  }

  /** A save that cannot copy the values stores nothing, and neither does one of a marked session. */
  lemma {:induction false} FailedSaveStoresNothing(w: World, step: Step)
    requires step.Save? && StoresAs(w, step).None?
    ensures Apply(w, step).Some? && Apply(w, step).value.entries == w.entries
  {
  }

  /** What a save reports: a session is found to be marked by its entry only, and a save fails only by the copy. */
  lemma {:induction false} SaveVerdict(entries: Entries, id: string, values: Values, newId: string, copied: bool)
    ensures var saved := SaveEntry(entries, id, values, newId, copied);
            && (saved.marked <==> id in entries && entries[id].destroy)
            && (saved.ok <==> copied || saved.marked)
            && saved.id == (if id in entries then id else newId)
  {
  }

  /** The id of a session that was never saved stands for no entry. */
  lemma {:induction false} EmptyIdIsInert(entries: Entries)
    ensures Use(entries, "") == entries && Openable(entries, "") == None && PutBack(entries, "") == Some(entries)
    ensures MarkOrDestroy(entries, "") == entries && MarkEntry(entries, "") == entries
  {
  }

  // ----- the end of a session -----

  /** No cookie opens the session with this id, which was once given out. */
  predicate Closed(w: World, id: string) {
    id in w.issued && Openable(w.entries, id).None?
  }

  /** A step that ends the session with this id: it is destroyed, or one of its holders marks it. */
  predicate EndsSession(w: World, step: Step, id: string) {
    step == DestroyById(id) || (step.Mark? && step.session < |w.objects| && w.objects[step.session].id == id)
  }

  lemma {:induction false} EndingCloses(w: World, step: Step, id: string)
    requires id in w.issued && EndsSession(w, step, id) && Apply(w, step).Some?
    ensures Closed(Apply(w, step).value, id)
    ensures step.Mark? ==>
              && |Apply(w, step).value.objects| == |w.objects|
              && Apply(w, step).value.objects[step.session] == w.objects[step.session].(marked := true)
  {
  }

  lemma {:induction false} ClosedStays(w: World, step: Step, id: string)
    requires Closed(w, id) && Disciplined(w, step) && Apply(w, step).Some?
    ensures Closed(Apply(w, step).value, id)
  {
  }

  lemma {:induction false} ClosedStaysClosed(steps: seq<Step>, n: nat, id: string)
    requires n <= |steps| && DisciplinedRun(steps) && Exec(steps[..n]).Some? && Closed(Exec(steps[..n]).value, id)
    ensures Exec(steps).Some? && Closed(Exec(steps).value, id)
    decreases |steps|
  {
    hide Apply, Closed, Disciplined;
    CountsAreExact(steps);
    hide Exact;
    if n < |steps| {
      var last := |steps| - 1;
      assert steps[..last][..n] == steps[..n];
      ClosedStaysClosed(steps[..last], n, id);
      ClosedStays(Exec(steps[..last]).value, steps[last], id);
    } else {
      assert steps[..n] == steps;
    }
  }

  /**
   An ended session stays ended: once a session was destroyed, or marked by one of its holders, no later request
   gets it by its cookie, whatever is saved, put back and opened in between. Such a request gets a new session.
   */
  lemma {:induction false} EndedSessionNeverOpens(steps: seq<Step>, k: nat, id: string, copied: bool)
    requires k < |steps| && DisciplinedRun(steps) && Exec(steps[..k]).Some?
    requires id in Exec(steps[..k]).value.issued && EndsSession(Exec(steps[..k]).value, steps[k], id)
    ensures Exec(steps).Some?
    ensures var w := Exec(steps).value;
            var next := Apply(w, OpenFromRequest(Some(id), copied));
            && next.Some? && next.value.entries == w.entries && |next.value.objects| == |w.objects| + 1
            && next.value.objects[|w.objects|] == Object("", map[], false)
  {
    CountsAreExact(steps);
    PrefixRuns(steps, k + 1);
    CountsAreExact(steps[..k + 1]);
    assert steps[..k + 1][..k] == steps[..k];
    hide Exact, DisciplinedRun, EndsSession;
    EndingCloses(Exec(steps[..k]).value, steps[k], id);
    ClosedStaysClosed(steps, k + 1, id);
    hide Exec;
  }

  lemma {:induction false} PrefixRuns(steps: seq<Step>, n: nat)
    requires n <= |steps| && DisciplinedRun(steps)
    ensures DisciplinedRun(steps[..n])
    decreases |steps|
  {
    if n == |steps| {
      assert steps[..n] == steps;
    } else {
      hide Disciplined;
      PrefixRuns(steps[..|steps| - 1], n);
      assert steps[..|steps| - 1][..n] == steps[..n];
    }
  }
}
