/**
 Reference counts of cached sessions. The cache maps a session id to its values, the number of uses and a
 destroy mark; session objects are snapshots handed to requests, and every use a request obtained is put
 back later. `World` adds to the cache the session objects and the uses that have not been put back, so
 that counts can be compared with what they count. Class `MemCache` of `SessionStore` is the cache itself.
 */
module Sessions {
  import opened Wrappers

  type Values = map<string, string>

  datatype Info = Info(values: Values, uses: nat, destroy: bool)

  type Entries = map<string, Info>

  // ----- the cache -----

  function Use(entries: Entries, id: string): Entries {
    if id == "" || id !in entries then entries else entries[id := entries[id].(uses := entries[id].uses + 1)]
  }

  /** The values of a session that a cookie may open; a session marked for destruction is not opened. */
  function Openable(entries: Entries, id: string): Option<Values> {
    if id == "" || id !in entries || entries[id].destroy then None else Some(entries[id].values)
  }

  /** None is the panic about mismatched uses; the other panic is about cached values that cannot be copied. */
  function PutBack(entries: Entries, id: string): Option<Entries> {
    if id == "" || id !in entries then Some(entries)
    else
      var info := entries[id];
      if info.uses == 0 then None
      else if info.destroy && info.uses == 1 then Some(entries - {id})
      else Some(entries[id := info.(uses := info.uses - 1)])
  }

  function MarkOrDestroy(entries: Entries, id: string): Entries {
    if id == "" || id !in entries then entries
    else if entries[id].uses > 0 then entries[id := entries[id].(destroy := true)]
    else entries - {id}
  }

  function MarkEntry(entries: Entries, id: string): Entries {
    if id == "" || id !in entries then entries else entries[id := entries[id].(destroy := true)]
  }

  datatype Saved = Saved(entries: Entries, id: string, marked: bool, ok: bool)

  /**
   `SaveSession`; `copied` tells whether the values can be copied. The first save assigns a new id even if
   it fails.
   */
  function SaveEntry(entries: Entries, id: string, values: Values, newId: string, copied: bool): Saved {
    if id in entries then
      if entries[id].destroy then Saved(entries, id, true, true)
      else if !copied then Saved(entries, id, false, false)
      else Saved(entries[id := entries[id].(values := values)], id, false, true)
    else if !copied then Saved(entries, newId, false, false)
    else Saved(entries[newId := Info(values, 1, false)], newId, false, true)
  }

  // ----- requests and their sessions -----

  datatype Object = Object(id: string, values: Values, marked: bool)

  /** `live` maps each use not put back yet to its session object; `issued` are the ids ever assigned. */
  datatype World = World(entries: Entries, objects: seq<Object>, live: map<nat, nat>, next: nat, issued: set<string>)

  datatype Step =
    | OpenFromContext(session: nat)
    | OpenFromRequest(cookie: Option<string>, copied: bool)
    | Save(session: nat, newId: string, copied: bool)
    | Mark(session: nat)
    | DestroyById(id: string)
    | Put(handle: nat)
    | SetValues(session: nat, values: Values)

  function Handed(w: World, session: nat): World {
    w.(live := w.live[w.next := session], next := w.next + 1)
  }

  /** What one step does; None is a panic. */
  function Apply(w: World, step: Step): Option<World> {
    match step
    case OpenFromContext(o) =>
      if o < |w.objects| then Some(Handed(w.(entries := Use(w.entries, w.objects[o].id)), o)) else Some(w)
    case OpenFromRequest(cookie, copied) =>
      if cookie.Some? && Openable(w.entries, cookie.value).Some? && !copied then None
      else if cookie.Some? && Openable(w.entries, cookie.value).Some? then
        var found := Object(cookie.value, Openable(w.entries, cookie.value).value, false);
        Some(Handed(w.(entries := Use(w.entries, cookie.value), objects := w.objects + [found]), |w.objects|))
      else Some(Handed(w.(objects := w.objects + [Object("", map[], false)]), |w.objects|))
    case Save(o, newId, copied) =>
      if o < |w.objects| && !w.objects[o].marked then
        var saved := SaveEntry(w.entries, w.objects[o].id, w.objects[o].values, newId, copied);
        Some(w.(entries := saved.entries,
                objects := w.objects[o := w.objects[o].(id := saved.id, marked := saved.marked)],
                issued := w.issued + {newId}))
      else Some(w)
    case Mark(o) =>
      if o < |w.objects| then
        Some(w.(entries := MarkEntry(w.entries, w.objects[o].id),
                objects := w.objects[o := w.objects[o].(marked := true)]))
      else Some(w)
    case DestroyById(id) => Some(w.(entries := MarkOrDestroy(w.entries, id)))
    case Put(h) =>
      if h in w.live && w.live[h] < |w.objects| then
        (match PutBack(w.entries, w.objects[w.live[h]].id)
         case None => None
         case Some(entries) => Some(w.(entries := entries, live := w.live - {h})))
      else Some(w)
    case SetValues(o, values) =>
      if o < |w.objects| then Some(w.(objects := w.objects[o := w.objects[o].(values := values)])) else Some(w)
  }

  /** The uses of one session object that have not been put back. */
  function HandlesOn(w: World, session: nat): set<nat> {
    set h | h in w.live && w.live[h] == session
  }

  /** The uses of all session objects with this id. */
  function HandlesFor(w: World, id: string): set<nat> {
    set h | h in w.live && w.live[h] < |w.objects| && w.objects[w.live[h]].id == id
  }

  predicate FirstSave(w: World, step: Step) {
    && step.Save? && step.session < |w.objects| && !w.objects[step.session].marked
    && w.objects[step.session].id !in w.entries && step.copied
  }

  /**
   What callers must respect: new ids are new, only a holder marks a session, and a session object is
   first saved while it has exactly one use, so an unsaved session is not shared. Values that were copied
   into the cache can be copied out of it.
   */
  predicate Disciplined(w: World, step: Step) {
    match step
    case Save(o, newId, _) => newId != "" && newId !in w.issued && (FirstSave(w, step) ==> |HandlesOn(w, o)| == 1)
    case Mark(o) => o < |w.objects| && w.objects[o].id in w.entries ==> HandlesOn(w, o) != {}
    case OpenFromRequest(_, copied) => copied
    case _ => true
  }

  // ----- the invariant -----

  ghost predicate EntryExact(w: World, id: string)
    requires id in w.entries
  {
    && id != "" && id in w.issued
    && w.entries[id].uses == |HandlesFor(w, id)|
    && (w.entries[id].destroy ==> w.entries[id].uses > 0)
  }

  ghost predicate Bookkeeping(w: World) {
    && (forall h | h in w.live :: h < w.next && w.live[h] < |w.objects|)
    && (forall o | 0 <= o < |w.objects| :: w.objects[o].id == "" || w.objects[o].id in w.issued)
  }

  ghost predicate Exact(w: World) {
    Bookkeeping(w) && forall id | id in w.entries :: EntryExact(w, id)
  }

  lemma {:induction false} NewHandle(w: World, w': World, o: nat, id: string)
    requires Bookkeeping(w) && o < |w'.objects| && w.objects <= w'.objects
    requires w'.live == w.live[w.next := o]
    ensures HandlesFor(w', id) == if w'.objects[o].id == id then HandlesFor(w, id) + {w.next} else HandlesFor(w, id)
    ensures w.next !in HandlesFor(w, id)
  {
  }

  lemma {:induction false} HandleGone(w: World, w': World, h: nat, id: string)
    requires Bookkeeping(w) && h in w.live && w'.objects == w.objects && w'.live == w.live - {h}
    ensures HandlesFor(w', id) == HandlesFor(w, id) - {h}
    ensures h in HandlesFor(w, id) <==> w.objects[w.live[h]].id == id
  {
  }

  lemma {:induction false} SameHandles(w: World, w': World, id: string)
    requires w'.live == w.live && |w'.objects| == |w.objects|
    requires forall o | 0 <= o < |w.objects| :: w'.objects[o].id == w.objects[o].id
    ensures HandlesFor(w', id) == HandlesFor(w, id)
  {
  }

  /** One more use of session object `o`, old or new, counted in its entry. */
  lemma {:induction false} OneMoreUse(w: World, w': World, o: nat)
    requires Exact(w) && o < |w'.objects| && w.objects <= w'.objects && w'.issued == w.issued && w'.next == w.next + 1
    requires forall k | |w.objects| <= k < |w'.objects| :: w'.objects[k].id == "" || w'.objects[k].id in w.issued
    requires w'.live == w.live[w.next := o] && w'.entries == Use(w.entries, w'.objects[o].id)
    ensures Exact(w')
  {
    forall id | id in w'.entries
      ensures EntryExact(w', id)
    {
      assert EntryExact(w, id);
      NewHandle(w, w', o, id);
      hide HandlesFor;
    }
  }

  lemma {:induction false} OpenKeepsExact(w: World, step: Step)
    requires Exact(w) && (step.OpenFromContext? || step.OpenFromRequest?) && Disciplined(w, step)
    ensures Apply(w, step).Some? && Exact(Apply(w, step).value)
  {
    var w' := Apply(w, step).value;
    if w' != w {
      if step.OpenFromRequest? && step.cookie.Some? && step.cookie.value in w.entries {
        assert EntryExact(w, step.cookie.value);
      }
      hide Exact, EntryExact;
      OneMoreUse(w, w', w'.live[w.next]);
    }
  }

  lemma {:induction false} PutKeepsExact(w: World, h: nat)
    requires Exact(w)
    ensures Apply(w, Put(h)).Some? && Exact(Apply(w, Put(h)).value)
  {
    if h in w.live {
      var id := w.objects[w.live[h]].id;
      HandleGone(w, w.(live := w.live - {h}), h, id);
      assert h in HandlesFor(w, id);
      assert id in w.entries ==> EntryExact(w, id);
      var w' := Apply(w, Put(h)).value;
      forall x | x in w'.entries
        ensures EntryExact(w', x)
      {
        assert EntryExact(w, x);
        HandleGone(w, w', h, x);
      }
    }
  }

  lemma {:induction false} MarkKeepsExact(w: World, step: Step)
    requires Exact(w) && Disciplined(w, step) && (step.Mark? || step.DestroyById? || step.SetValues?)
    ensures Apply(w, step).Some? && Exact(Apply(w, step).value)
  {
    var w' := Apply(w, step).value;
    if step.Mark? && step.session < |w.objects| && w.objects[step.session].id in w.entries {
      var h :| h in HandlesOn(w, step.session);
      assert h in HandlesFor(w, w.objects[step.session].id);
      assert EntryExact(w, w.objects[step.session].id);
    }
    forall id | id in w'.entries
      ensures EntryExact(w', id)
    {
      assert EntryExact(w, id);
      SameHandles(w, w', id);
    }
  }

  /** A save that is not a first save of a session: no count is touched. */
  lemma {:induction false} LaterSaveKeepsExact(w: World, step: Step)
    requires Exact(w) && step.Save? && step.newId != "" && step.newId !in w.issued && !FirstSave(w, step)
    ensures Apply(w, step).Some? && Exact(Apply(w, step).value)
  {
    var w' := Apply(w, step).value;
    if step.session < |w.objects| {
      var id0 := w.objects[step.session].id;
      forall id | id in w'.entries
        ensures EntryExact(w', id)
      {
        assert EntryExact(w, id);
        OtherIdsKeepHandles(w, w', step.session, id);
      }
    }
  }

  /** An object that changes its id from one that has no entry to a new one leaves the other ids alone. */
  lemma {:induction false} OtherIdsKeepHandles(w: World, w': World, o: nat, id: string)
    requires o < |w.objects| && w'.live == w.live && |w'.objects| == |w.objects|
    requires forall k | 0 <= k < |w.objects| && k != o :: w'.objects[k].id == w.objects[k].id
    requires w'.objects[o].id == w.objects[o].id || (w.objects[o].id != id && w'.objects[o].id != id)
    ensures HandlesFor(w', id) == HandlesFor(w, id)
  {
  }

  /** The first save keeps the counts exact if and only if the session object has exactly one use. */
  lemma {:induction false} FirstSaveExactIff(w: World, step: Step)
    requires Exact(w) && FirstSave(w, step) && step.newId != "" && step.newId !in w.issued
    ensures Apply(w, step).Some?
    ensures Exact(Apply(w, step).value) <==> |HandlesOn(w, step.session)| == 1
  {
    var w' := Apply(w, step).value;
    assert HandlesFor(w', step.newId) == HandlesOn(w, step.session);
    forall id | id in w'.entries && id != step.newId
      ensures EntryExact(w', id)
    {
      assert EntryExact(w, id);
      OtherIdsKeepHandles(w, w', step.session, id);
    }
    assert EntryExact(w', step.newId) <==> |HandlesOn(w, step.session)| == 1;
  }

  /** Uses put back one after another; None when one of them panics. */
  function PutAll(w: World, handles: seq<nat>): Option<World>
    decreases |handles|
  {
    if handles == [] then Some(w)
    else
      match Apply(w, Put(handles[0]))
      case None => None
      case Some(w') => PutAll(w', handles[1..])
  }

  /** `handles` lists the uses of one session object, each once. */
  ghost predicate ListsHandles(w: World, session: nat, handles: seq<nat>) {
    && (forall i, j | 0 <= i < j < |handles| :: handles[i] != handles[j])
    && (forall h :: h in handles <==> h in HandlesOn(w, session))
  }

  /** Puts on an unmarked entry that counts fewer uses than there are. */
  lemma {:induction false} PutsUntilZero(w: World, session: nat, handles: seq<nat>)
    requires session < |w.objects| && w.objects[session].id in w.entries && w.objects[session].id != ""
    requires !w.entries[w.objects[session].id].destroy
    requires forall i, j | 0 <= i < j < |handles| :: handles[i] != handles[j]
    requires forall h | h in handles :: h in w.live && w.live[h] == session
    ensures PutAll(w, handles).None? <==> |handles| > w.entries[w.objects[session].id].uses
    decreases |handles|
  {
    if handles != [] {
      assert handles[0] in handles && forall h | h in handles[1..] :: h in handles;
      var next := Apply(w, Put(handles[0]));
      if next.Some? {
        assert forall h | h in handles[1..] :: h != handles[0];
        PutsUntilZero(next.value, session, handles[1..]);
      }
    }
  }

  /**
   What a wrong count leads to: after the first save of a session that nobody marks, putting back all its uses
   panics if and only if there are at least two of them.
   */
  lemma {:induction false} FirstSavePanicsIff(w: World, step: Step, handles: seq<nat>)
    requires Exact(w) && FirstSave(w, step) && step.newId != "" && step.newId !in w.issued
    requires ListsHandles(w, step.session, handles)
    ensures Apply(w, step).Some?
    ensures PutAll(Apply(w, step).value, handles).None? <==> |handles| >= 2
  {
    var w' := Apply(w, step).value;
    PutsUntilZero(w', step.session, handles);
  }

  lemma {:induction false} StepKeepsExact(w: World, step: Step)
    requires Exact(w) && Disciplined(w, step)
    ensures Apply(w, step).Some? && Exact(Apply(w, step).value)
  {
    match step
    case OpenFromContext(_) => OpenKeepsExact(w, step);
    case OpenFromRequest(_, _) => OpenKeepsExact(w, step);
    case Put(h) => PutKeepsExact(w, h);
    case Save(_, _, _) =>
      if FirstSave(w, step) {
        FirstSaveExactIff(w, step);
      } else {
        LaterSaveKeepsExact(w, step);
      }
    case _ => MarkKeepsExact(w, step);
  }

  // ----- runs -----

  const START := World(map[], [], map[], 0, {})

  function Exec(steps: seq<Step>): Option<World> {
    if steps == [] then Some(START)
    else
      match Exec(steps[..|steps| - 1])
      case None => None
      case Some(w) => Apply(w, steps[|steps| - 1])
  }

  predicate DisciplinedRun(steps: seq<Step>) {
    steps == [] ||
    (DisciplinedRun(steps[..|steps| - 1])
     && match Exec(steps[..|steps| - 1])
        case None => true
        case Some(w) => Disciplined(w, steps[|steps| - 1]))
  }

  /**
   Over every interleaving, no panic occurs and each entry's use count equals the number of its uses that
   have not been put back; a marked entry still has one.
   */
  lemma {:induction false} CountsAreExact(steps: seq<Step>)
    requires DisciplinedRun(steps)
    ensures Exec(steps).Some? && Exact(Exec(steps).value)
  {
    hide Apply, Disciplined;
    if steps == [] {
      StartIsExact();
    } else {
      hide Exact;
      CountsAreExact(steps[..|steps| - 1]);
      StepKeepsExact(Exec(steps[..|steps| - 1]).value, steps[|steps| - 1]);
    }
  }

  lemma StartIsExact()
    ensures Exact(START)
  {
  }

  /**
   An entry is removed exactly by the put of its last use when it is marked, or by destroying it while it
   has no use.
   */
  lemma {:induction false} EntryRemovedIff(steps: seq<Step>, step: Step, id: string)
    requires DisciplinedRun(steps + [step])
    requires Exec(steps).Some? && id in Exec(steps).value.entries
    ensures var w := Exec(steps).value;
            && Exec(steps + [step]).Some?
            && (id !in Exec(steps + [step]).value.entries <==>
                || (step.Put? && HandlesFor(w, id) == {step.handle} && w.entries[id].destroy)
                || (step == DestroyById(id) && HandlesFor(w, id) == {}))
  {
    var w := Exec(steps).value;
    assert (steps + [step])[..|steps|] == steps;
    CountsAreExact(steps);
    StepKeepsExact(w, step);
    assert EntryExact(w, id);
    hide Disciplined, Exec;
    if step.Put? {
      LastUse(w, id, step.handle);
    }
  }

  /** With an exact count of one, a use of the entry is its only use. */
  lemma {:induction false} LastUse(w: World, id: string, h: nat)
    requires Exact(w) && id in w.entries
    ensures HandlesFor(w, id) == {h} <==> h in HandlesFor(w, id) && w.entries[id].uses == 1
    ensures h in HandlesFor(w, id) <==> h in w.live && w.objects[w.live[h]].id == id
  {
    assert EntryExact(w, id);
    var s := HandlesFor(w, id);
    if h in s && |s| == 1 {
      assert |s - {h}| == 0;
      assert s == (s - {h}) + {h};
    }
    if s == {h} {
      assert |s| == 1;
    }
  }

  /** A session that is in use is never taken away from under its users. */
  lemma {:induction false} HeldEntryStays(steps: seq<Step>, step: Step, id: string)
    requires DisciplinedRun(steps + [step])
    requires Exec(steps).Some? && id in Exec(steps).value.entries
    requires Exec(steps + [step]).Some? && HandlesFor(Exec(steps + [step]).value, id) != {}
    ensures id in Exec(steps + [step]).value.entries
  {
    var w, w' := Exec(steps).value, Exec(steps + [step]).value;
    assert (steps + [step])[..|steps|] == steps;
    EntryRemovedIff(steps, step, id);
    CountsAreExact(steps);
    if step.Put? {
      LastPutLeavesNone(w, step.handle, id);
    }
  }

  lemma {:induction false} LastPutLeavesNone(w: World, h: nat, id: string)
    requires Exact(w) && id in w.entries && Apply(w, Put(h)).Some?
    ensures HandlesFor(w, id) == {h} ==> HandlesFor(Apply(w, Put(h)).value, id) == {}
  {
    LastUse(w, id, h);
  }

  /**
   A cookie opens a session exactly when it is cached and not marked; otherwise the request gets a new
   session without id. The opened session has the values of its entry; if they cannot be copied, opening it panics.
   */
  lemma {:induction false} CookieOpensUnmarked(w: World, id: string, copied: bool)
    requires Exact(w)
    ensures var r := Apply(w, OpenFromRequest(Some(id), copied));
            r.None? <==> !copied && id in w.entries && !w.entries[id].destroy
    ensures var r := Apply(w, OpenFromRequest(Some(id), copied));
            r.Some? ==>
            && |r.value.objects| == |w.objects| + 1 && w.next in r.value.live && r.value.live[w.next] == |w.objects|
            && var found := r.value.objects[|w.objects|];
               if id in w.entries && !w.entries[id].destroy then found == Object(id, w.entries[id].values, false)
               else found == Object("", map[], false)
  {
    assert id in w.entries ==> EntryExact(w, id);
  }

  lemma {:induction false} ExecNext(steps: seq<Step>, step: Step, w: World)
    requires Exec(steps) == Some(w)
    ensures Exec(steps + [step]) == Apply(w, step)
  {
    assert (steps + [step])[..|steps|] == steps;
  }

  /**
   Without the discipline the count goes wrong: a session shared through a context before its first save
   ends in the panic about mismatched uses.
   */
  lemma {:induction false} SharedUnsavedSessionPanics()
    ensures Exec([OpenFromRequest(None, true)] + [OpenFromContext(0)] + [Save(0, "s", true)] + [Put(0)] + [Put(1)])
            == None
  {
    var new' := Object("", map[], false);
    var w1 := World(map[], [new'], map[0 := 0], 1, {});
    ExecNext([], OpenFromRequest(None, true), START);
    assert [] + [OpenFromRequest(None, true)] == [OpenFromRequest(None, true)] && [] + [new'] == [new'];
    var w2 := World(map[], [new'], map[0 := 0][1 := 0], 2, {});
    ExecNext([OpenFromRequest(None, true)], OpenFromContext(0), w1);
    var w3 := SaveOnce(w2, new');
    ExecNext([OpenFromRequest(None, true)] + [OpenFromContext(0)], Save(0, "s", true), w2);
    ExecNext([OpenFromRequest(None, true)] + [OpenFromContext(0)] + [Save(0, "s", true)], Put(0), w3);
    var w4 := w3.(entries := map["s" := Info(map[], 0, false)], live := w3.live - {0});
    assert w3.entries["s" := Info(map[], 0, false)] == w4.entries;
    ExecNext([OpenFromRequest(None, true)] + [OpenFromContext(0)] + [Save(0, "s", true)] + [Put(0)], Put(1), w4);
  }

  lemma SaveOnce(w: World, o: Object) returns (w': World)
    requires w.entries == map[] && w.objects == [o] && o == Object("", map[], false)
    ensures Apply(w, Save(0, "s", true)) == Some(w')
    ensures w' == World(map["s" := Info(map[], 1, false)], [Object("s", map[], false)], w.live, w.next,
            w.issued + {"s"})
  {
    w' := Apply(w, Save(0, "s", true)).value;
    assert [o][0 := Object("s", map[], false)] == [Object("s", map[], false)];
  }
}
