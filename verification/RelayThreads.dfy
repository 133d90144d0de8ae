/** The handshake between the slave loop and the relay threads (slave.c). The slave loop is one thread, so
    it has one position; relay threads run beside it and every step may be interleaved with theirs. */
module RelayThreads {
  import opened Bytes

  type Id = nat
  type Tid = nat

  /** A relay thread works, then marks its relay for cleanup, then exits; it exists until joined. */
  datatype Phase = Working | Marked | Exited

  datatype Thread = Thread(relay: Id, phase: Phase, joined: bool)

  datatype Relay = Relay(reserved: bool, running: bool, cleanup: bool, handle: Option<Tid>)

  /** Where the slave loop is inside a check or a removal. */
  datatype Position =
    | Idle
    | Creating(id: Id)
    | Storing(id: Id, tid: Tid)
    | Joining(id: Id)
    | Clearing(id: Id)
    | Stopping(id: Id)
    | Releasing(id: Id)

  datatype World = World(relays: map<Id, Relay>, threads: map<Tid, Thread>, at: Position)

  /** `Check` and `Remove` begin when the slave loop is idle; `Proceed` is its next action within them,
      with the identity a new thread would get. `available` is whether the mount can be reserved, `due`
      whether the relay may start now. */
  datatype Step =
    | Add(id: Id)
    | Check(id: Id, available: bool, due: bool)
    | Remove(id: Id)
    | Proceed(tid: Tid)
    | Mark(tid: Tid)
    | Exit(tid: Tid)

  const START := World(map[], map[], Idle)

  function SetRelay(w: World, id: Id, r: Relay): World {
    w.(relays := w.relays[id := r])
  }

  function SetThread(w: World, tid: Tid, t: Thread): World {
    w.(threads := w.threads[tid := t])
  }

  function CheckStep(w: World, id: Id, available: bool, due: bool): World
    requires id in w.relays
  {
    var r := w.relays[id].(reserved := w.relays[id].reserved || available);
    if !r.reserved then w
    else if !r.running && due then SetRelay(w, id, r.(running := true)).(at := Creating(id))
    else if r.cleanup then
      if r.handle.Some? then SetRelay(w, id, r).(at := Joining(id))
      else SetRelay(w, id, r.(cleanup := false, running := false))
    else SetRelay(w, id, r)
  }

  function RemoveStep(w: World, id: Id): World
    requires id in w.relays
  {
    var r := w.relays[id];
    if r.reserved && r.running then SetRelay(w, id, r.(running := false)).(at := Stopping(id))
    else w.(relays := w.relays - {id})
  }

  /** A join waits until the thread has exited. */
  predicate CanJoin(w: World, id: Id) {
    && id in w.relays && w.relays[id].handle.Some? && w.relays[id].handle.value in w.threads
    && w.threads[w.relays[id].handle.value].phase == Exited
  }

  function JoinStep(w: World, id: Id, next: Position): World
    requires CanJoin(w, id)
  {
    var tid := w.relays[id].handle.value;
    SetThread(w, tid, w.threads[tid].(joined := true)).(at := next)
  }

  function ProceedStep(w: World, tid: Tid): World {
    match w.at
    case Idle => w
    case Creating(id) =>
      if tid in w.threads then w else SetThread(w, tid, Thread(id, Working, false)).(at := Storing(id, tid))
    case Storing(id, t) =>
      if id in w.relays then SetRelay(w, id, w.relays[id].(handle := Some(t))).(at := Idle) else w
    case Joining(id) => if CanJoin(w, id) then JoinStep(w, id, Clearing(id)) else w
    case Clearing(id) =>
      if id in w.relays then SetRelay(w, id,
        w.relays[id].(handle := None, cleanup := false, running := false)).(at := Idle) else w
    case Stopping(id) => if CanJoin(w, id) then JoinStep(w, id, Releasing(id)) else w
    case Releasing(id) => w.(relays := w.relays - {id}, at := Idle)
  }

  function MarkStep(w: World, tid: Tid): World {
    if tid in w.threads && w.threads[tid].phase == Working && w.threads[tid].relay in w.relays then
      var t := w.threads[tid];
      SetRelay(SetThread(w, tid, t.(phase := Marked)), t.relay, w.relays[t.relay].(cleanup := true))
    else w
  }

  function ExitStep(w: World, tid: Tid): World {
    if tid in w.threads && w.threads[tid].phase == Marked then SetThread(w, tid, w.threads[tid].(phase := Exited))
      else w
  }

  function Apply(w: World, s: Step): World {
    match s
    case Add(id) => if w.at.Idle? && id !in w.relays then SetRelay(w, id, Relay(false, false, false, None)) else w
    case Check(id, available, due) => if w.at.Idle? && id in w.relays then CheckStep(w, id, available, due) else w
    case Remove(id) => if w.at.Idle? && id in w.relays then RemoveStep(w, id) else w
    case Proceed(tid) => ProceedStep(w, tid)
    case Mark(tid) => MarkStep(w, tid)
    case Exit(tid) => ExitStep(w, tid)
  }

  function Execute(w: World, steps: seq<Step>): World
    decreases |steps|
  {
    if steps == [] then w else Execute(Apply(w, steps[0]), steps[1..])
  }

  // ---------------------------------------------------------------- the invariant

  /** The thread a relay has at this moment. */
  function Current(w: World, id: Id): Option<Tid>
    requires id in w.relays
  {
    if w.at.Storing? && w.at.id == id then Some(w.at.tid) else w.relays[id].handle
  }

  predicate Unjoined(w: World, tid: Tid, id: Id) {
    tid in w.threads && w.threads[tid].relay == id && !w.threads[tid].joined
  }

  predicate Reaped(w: World, tid: Tid, id: Id) {
    tid in w.threads && w.threads[tid].relay == id && w.threads[tid].joined
  }

  predicate RelayOk(w: World, id: Id)
    requires id in w.relays
  {
    var r := w.relays[id];
    && (r.running ==> r.reserved)
    && (r.cleanup ==>
          && Current(w, id).Some? && Current(w, id).value in w.threads
          && w.threads[Current(w, id).value].phase != Working)
    && (if w.at == Creating(id) then r.running && r.handle.None?
        else if w.at.Storing? && w.at.id == id then r.running && r.handle.None? && Unjoined(w, w.at.tid, id)
        else if w.at == Joining(id) then r.running && r.cleanup && r.handle.Some? && Unjoined(w, r.handle.value, id)
        else if w.at == Clearing(id) || w.at == Releasing(id) then r.handle.Some? && Reaped(w, r.handle.value, id)
        else if w.at == Stopping(id) then !r.running && r.handle.Some? && Unjoined(w, r.handle.value, id)
        else (r.running <==> r.handle.Some?) && (r.handle.Some? ==> Unjoined(w, r.handle.value, id)))
  }

  predicate ThreadOk(w: World, tid: Tid)
    requires tid in w.threads
  {
    var t := w.threads[tid];
    if t.joined then t.phase == Exited
    else
      && t.relay in w.relays && Current(w, t.relay) == Some(tid)
      && (t.phase != Working ==> w.relays[t.relay].cleanup)
  }

  predicate Inv(w: World) {
    && (forall id :: id in w.relays ==> RelayOk(w, id))
    && (forall tid :: tid in w.threads ==> ThreadOk(w, tid))
    && (!w.at.Idle? ==> w.at.id in w.relays)
  }

  lemma CheckKeeps(w: World, id: Id, available: bool, due: bool)
    requires Inv(w) && w.at.Idle? && id in w.relays
    ensures Inv(CheckStep(w, id, available, due))
  {
    var v := CheckStep(w, id, available, due);
    assert RelayOk(w, id);
    forall x | x in v.relays ensures RelayOk(v, x) { assert RelayOk(w, x); }
    forall t | t in v.threads ensures ThreadOk(v, t) { assert ThreadOk(w, t); }
  }

  lemma RemoveKeeps(w: World, id: Id)
    requires Inv(w) && w.at.Idle? && id in w.relays
    ensures Inv(RemoveStep(w, id))
  {
    var v := RemoveStep(w, id);
    assert RelayOk(w, id);
    forall x | x in v.relays ensures RelayOk(v, x) { assert RelayOk(w, x); }
    forall t | t in v.threads ensures ThreadOk(v, t) { assert ThreadOk(w, t); }
  }

  lemma JoinKeeps(w: World, id: Id, next: Position)
    requires Inv(w) && CanJoin(w, id)
    requires (w.at == Joining(id) && next == Clearing(id)) || (w.at == Stopping(id) && next == Releasing(id))
    ensures Inv(JoinStep(w, id, next))
  {
    var v := JoinStep(w, id, next);
    assert RelayOk(w, id);
    forall x | x in v.relays ensures RelayOk(v, x) {
      assert RelayOk(w, x);
    }
    forall t | t in v.threads ensures ThreadOk(v, t) { assert ThreadOk(w, t); }
  }

  lemma ProceedKeeps(w: World, tid: Tid)
    requires Inv(w)
    ensures Inv(ProceedStep(w, tid))
  {
    var v := ProceedStep(w, tid);
    if !w.at.Idle? {
      var id := w.at.id;
      assert RelayOk(w, id);
      if (w.at.Joining? || w.at.Stopping?) && CanJoin(w, id) {
        JoinKeeps(w, id, v.at);
      } else {
        forall x | x in v.relays ensures RelayOk(v, x) { assert RelayOk(w, x); }
        forall t | t in v.threads ensures ThreadOk(v, t) {
          if t in w.threads { assert ThreadOk(w, t); }
        }
      }
    }
  }

  lemma MarkKeeps(w: World, tid: Tid)
    requires Inv(w)
    ensures Inv(MarkStep(w, tid))
  {
    var v := MarkStep(w, tid);
    if tid in w.threads {
      assert ThreadOk(w, tid);
    }
    forall x | x in v.relays ensures RelayOk(v, x) { assert RelayOk(w, x); }
    forall t | t in v.threads ensures ThreadOk(v, t) { assert ThreadOk(w, t); }
  }

  lemma ExitKeeps(w: World, tid: Tid)
    requires Inv(w)
    ensures Inv(ExitStep(w, tid))
  {
    var v := ExitStep(w, tid);
    forall x | x in v.relays ensures RelayOk(v, x) { assert RelayOk(w, x); }
    forall t | t in v.threads ensures ThreadOk(v, t) { assert ThreadOk(w, t); }
  }

  lemma AddKeeps(w: World, id: Id)
    requires Inv(w) && w.at.Idle? && id !in w.relays
    ensures Inv(SetRelay(w, id, Relay(false, false, false, None)))
  {
    var v := SetRelay(w, id, Relay(false, false, false, None));
    forall x | x in v.relays ensures RelayOk(v, x) {
      if x != id { assert RelayOk(w, x); }
    }
    forall t | t in v.threads ensures ThreadOk(v, t) { assert ThreadOk(w, t); }
  }

  lemma ApplyKeeps(w: World, s: Step)
    requires Inv(w)
    ensures Inv(Apply(w, s))
  {
    hide Inv;
    match s
    case Add(id) => if w.at.Idle? && id !in w.relays { AddKeeps(w, id); }
    case Check(id, available, due) => if w.at.Idle? && id in w.relays { CheckKeeps(w, id, available, due); }
    case Remove(id) => if w.at.Idle? && id in w.relays { RemoveKeeps(w, id); }
    case Proceed(tid) => ProceedKeeps(w, tid);
    case Mark(tid) => MarkKeeps(w, tid);
    case Exit(tid) => ExitKeeps(w, tid);
  }

  lemma {:induction false} RunsKeep(w: World, steps: seq<Step>)
    requires Inv(w)
    ensures Inv(Execute(w, steps))
    decreases |steps|
  {
    if steps != [] {
      ApplyKeeps(w, steps[0]);
      RunsKeep(Apply(w, steps[0]), steps[1..]);
    }
  }

  // ---------------------------------------------------------------- what every interleaving keeps

  /** No relay is freed before its thread has been joined: the relay of every unjoined thread exists. */
  lemma NotFreedBeforeJoin(steps: seq<Step>, tid: Tid)
    requires tid in Execute(START, steps).threads && !Execute(START, steps).threads[tid].joined
    ensures var w := Execute(START, steps); w.threads[tid].relay in w.relays
  {
    RunsKeep(START, steps);
    assert ThreadOk(Execute(START, steps), tid);
  }

  /** A relay never has two unjoined threads. */
  lemma OneThreadPerRelay(steps: seq<Step>, t: Tid, u: Tid, id: Id)
    requires Unjoined(Execute(START, steps), t, id) && Unjoined(Execute(START, steps), u, id)
    ensures t == u
  {
    RunsKeep(START, steps);
    var w := Execute(START, steps);
    assert ThreadOk(w, t) && ThreadOk(w, u);
  }

  /** An unjoined thread means that its relay is running, except exactly while the slave loop is stopping
      that relay and waits for the thread. */
  lemma LiveMeansRunning(steps: seq<Step>, tid: Tid, id: Id)
    requires Unjoined(Execute(START, steps), tid, id)
    ensures var w := Execute(START, steps);
            id in w.relays && (w.relays[id].running <==> w.at != Stopping(id))
  {
    RunsKeep(START, steps);
    var w := Execute(START, steps);
    assert ThreadOk(w, tid);
    assert RelayOk(w, id);
  }

  /** Between checks a relay runs if and only if it has an unjoined thread, the one in its handle. */
  lemma RunningMeansThread(steps: seq<Step>, id: Id)
    requires Execute(START, steps).at.Idle? && id in Execute(START, steps).relays
    ensures var w := Execute(START, steps);
            && (w.relays[id].running <==> exists tid :: Unjoined(w, tid, id))
            && (w.relays[id].running ==> w.relays[id].handle.Some? && Unjoined(w, w.relays[id].handle.value, id))
  {
    RunsKeep(START, steps);
    var w := Execute(START, steps);
    assert RelayOk(w, id);
    forall tid | Unjoined(w, tid, id)
      ensures w.relays[id].running
    {
      assert ThreadOk(w, tid);
    }
  }

  /** Every join is on a thread that exists and has not been joined; a check only waits for a thread that
      has finished its work. */
  lemma JoinsAreSound(steps: seq<Step>)
    ensures var w := Execute(START, steps);
            w.at.Joining? || w.at.Stopping? ==>
              && w.at.id in w.relays && w.relays[w.at.id].handle.Some?
              && Unjoined(w, w.relays[w.at.id].handle.value, w.at.id)
              && (w.at.Joining? ==> w.threads[w.relays[w.at.id].handle.value].phase != Working)
  {
    RunsKeep(START, steps);
    var w := Execute(START, steps);
    if w.at.Joining? || w.at.Stopping? {
      assert RelayOk(w, w.at.id);
    }
  }

  // ---------------------------------------------------------------- what the slave loop achieves

  lemma Unfold(w: World, a: Step, b: Step, c: Step)
    ensures Execute(w, [a, b]) == Apply(Apply(w, a), b)
    ensures Execute(w, [a, b, c]) == Apply(Apply(Apply(w, a), b), c)
  {
    assert [a, b, c][1..] == [b, c] && [a, b][1..] == [b] && [b, c][1..] == [c] && [b][1..] == [] && [c][1..] == [];
    assert Execute(Apply(w, a), [b]) == Apply(Apply(w, a), b);
    assert Execute(Apply(w, a), [b, c]) == Execute(Apply(Apply(w, a), b), [c]);
  }

  /** The world in which the thread has been joined. */
  function Joined(w: World, tid: Tid): World
    requires tid in w.threads
  {
    w.(threads := w.threads[tid := w.threads[tid].(joined := true)])
  }

  /** A finished thread is reaped: between checks, once the thread of a relay has exited, a check joins it and
      leaves the relay stopped, unmarked and without a thread, ready to start again; nothing else changes. */
  lemma FinishedIsReaped(steps: seq<Step>, id: Id, tid: Tid, available: bool, due: bool, x: Tid, y: Tid)
    requires Execute(START, steps).at.Idle? && Unjoined(Execute(START, steps), tid, id)
    requires Execute(START, steps).threads[tid].phase == Exited
    ensures var w := Execute(START, steps);
            Execute(w, [Check(id, available, due), Proceed(x), Proceed(y)])
            == Joined(w, tid).(relays := w.relays[id := Relay(true, false, false, None)])
  {
    var w := Execute(START, steps);
    RunsKeep(START, steps);
    assert ThreadOk(w, tid);
    assert RelayOk(w, id);
    Unfold(w, Check(id, available, due), Proceed(x), Proceed(y));
  }

  /** A due check starts a stopped relay whose mount is reserved, or can be: it runs with the new thread in its
      handle, which works for it, and nothing else changes. */
  lemma DueIsStarted(steps: seq<Step>, id: Id, available: bool, tid: Tid, y: Tid)
    requires Execute(START, steps).at.Idle? && id in Execute(START, steps).relays
    requires !Execute(START, steps).relays[id].running && (Execute(START, steps).relays[id].reserved || available)
    requires tid !in Execute(START, steps).threads
    ensures var w := Execute(START, steps);
            Execute(w, [Check(id, available, true), Proceed(tid), Proceed(y)])
            == World(w.relays[id := Relay(true, true, false, Some(tid))],
                     w.threads[tid := Thread(id, Working, false)], Idle)
  {
    var w := Execute(START, steps);
    RunsKeep(START, steps);
    assert RelayOk(w, id);
    Unfold(w, Check(id, available, true), Proceed(tid), Proceed(y));
  }

  /** Every other check changes nothing but the reservation of the mount. */
  lemma OtherwiseUnchanged(steps: seq<Step>, id: Id, available: bool, due: bool)
    requires Execute(START, steps).at.Idle? && id in Execute(START, steps).relays
    requires var r := Execute(START, steps).relays[id];
             if r.running then r.handle.Some? && r.handle.value in Execute(START, steps).threads &&
                Execute(START, steps).threads[r.handle.value].phase == Working
             else !due || !(r.reserved || available)
    ensures var w := Execute(START, steps);
            var r := w.relays[id];
            Execute(w, [Check(id, available, due)])
            == w.(relays := w.relays[id := r.(reserved := r.reserved || available)])
  {
    var w := Execute(START, steps);
    RunsKeep(START, steps);
    assert RelayOk(w, id);
    assert [Check(id, available, due)][1..] == [];
    assert w.relays[id := w.relays[id]] == w.relays;
  }

  /** Removing a relay that does not run frees it at once. One that runs is told to stop, and the loop waits. */
  lemma RemoveStops(steps: seq<Step>, id: Id)
    requires Execute(START, steps).at.Idle? && id in Execute(START, steps).relays
    ensures var w := Execute(START, steps);
            Execute(w, [Remove(id)])
            == if w.relays[id].running
               then World(w.relays[id := w.relays[id].(running := false)], w.threads, Stopping(id))
               else w.(relays := w.relays - {id})
  {
    RunsKeep(START, steps);
    assert RelayOk(Execute(START, steps), id);
    assert [Remove(id)][1..] == [];
  }

  /** However the loop came to wait for a relay it stops: once the thread has exited, it joins the thread and
      frees the relay, and nothing else changes. */
  lemma StoppedIsFreed(steps: seq<Step>, id: Id, tid: Tid, x: Tid, y: Tid)
    requires Execute(START, steps).at == Stopping(id) && Unjoined(Execute(START, steps), tid, id)
    requires Execute(START, steps).threads[tid].phase == Exited
    ensures var w := Execute(START, steps);
            Execute(w, [Proceed(x), Proceed(y)]) == Joined(w, tid).(relays := w.relays - {id}, at := Idle)
  {
    var w := Execute(START, steps);
    RunsKeep(START, steps);
    assert ThreadOk(w, tid);
    assert RelayOk(w, id);
    Unfold(w, Proceed(x), Proceed(y), Proceed(y));
  }

  /** A thread can always finish, whatever the loop does: it marks its relay and exits. So the loop never waits
      for a thread that cannot come to its end. */
  lemma ThreadsFinish(steps: seq<Step>, tid: Tid)
    requires tid in Execute(START, steps).threads
    ensures var w := Execute(START, steps);
            var v := Execute(w, [Mark(tid), Exit(tid)]);
            var id := w.threads[tid].relay;
            && v.at == w.at && v.threads == w.threads[tid := w.threads[tid].(phase := Exited)]
            && (w.threads[tid].joined ==> v.relays == w.relays)
            && (!w.threads[tid].joined ==>
              id in w.relays && v.relays == w.relays[id := w.relays[id].(cleanup := true)])
  {
    var w := Execute(START, steps);
    RunsKeep(START, steps);
    assert ThreadOk(w, tid);
    Unfold(w, Mark(tid), Exit(tid), Exit(tid));
    assert w.threads[tid := w.threads[tid]] == w.threads;
  }

  /** A live thread without `running`: the relay is removed from the configuration while its thread works. */
  lemma StoppedWhileLive()
    ensures var w := Execute(START, [Add(1), Check(1, true, true), Proceed(7), Proceed(0), Remove(1)]);
            Unjoined(w, 7, 1) && w.threads[7].phase == Working && !w.relays[1].running
  {
    var s := [Add(1), Check(1, true, true), Proceed(7), Proceed(0), Remove(1)];
    var w1 := Apply(START, s[0]);
    var w2 := Apply(w1, s[1]);
    var w3 := Apply(w2, s[2]);
    var w4 := Apply(w3, s[3]);
    var w5 := Apply(w4, s[4]);
    assert s[1..][1..][1..][1..][1..] == [];
    assert Execute(START, s) == w5;
  }
}
