/** Edits of the receiver's name and the thread that advertises the name once it
    has been left alone (update_server_name, name_debounce_thread_func and
    apply_server_name in src/plugin-main.cpp). Every section under the debounce
    mutex is one step, applying a name another; edits come at any time. */
module NameDebounce {

  const DEFAULT_NAME := "OBS AirPlay"

  /** A change in flight has a generation above 0 and a pending name. */
  datatype Shared = Shared(generation: nat, pending: string, serverName: string, quit: bool)

  function Resolved(name: string): string {
    if name == "" then DEFAULT_NAME else name
  }

  predicate Accepts(s: Shared, name: string) {
    if s.generation != 0 then Resolved(name) != s.pending else Resolved(name) != s.serverName
  }

  function Update(s: Shared, name: string): Shared {
    if Accepts(s, name) then s.(pending := Resolved(name), generation := s.generation + 1) else s
  }

  /** `changed`: the advertisement could be changed, or there is none yet. */
  function Apply(s: Shared, name: string, changed: bool): Shared {
    if name == s.serverName || !changed then s else s.(serverName := name)
  }

  function Settle(s: Shared, myGeneration: nat): Shared {
    if s.generation == myGeneration then s.(generation := 0) else s
  }

  class Debouncer {
    var generation: nat
    var pending: string
    var serverName: string
    var quit: bool

    function View(): Shared reads this {
      Shared(generation, pending, serverName, quit)
    }

    constructor (name: string)
      ensures View() == Shared(0, "", name, false)
    {
      generation, pending, serverName, quit := 0, "", name, false;
    }

    method UpdateServerName(newName: string) returns (scheduled: bool)
      modifies this
      ensures View() == Update(old(View()), newName) && scheduled == Accepts(old(View()), newName)
    {
      var resolved := if newName == "" then DEFAULT_NAME else newName;
      if generation != 0 {
        if resolved == pending { return false; }
      } else {
        if resolved == serverName { return false; }
      }
      pending := resolved;
      generation := generation + 1;
      return true;
    }

    method ApplyServerName(name: string, changed: bool)
      modifies this
      ensures View() == Apply(old(View()), name, changed)
    {
      if name == serverName { return; }
      if !changed { return; }
      serverName := name;
    }

    method SettleGeneration(myGeneration: nat)
      modifies this
      ensures View() == Settle(old(View()), myGeneration)
    {
      if generation == myGeneration { generation := 0; }
    }
  }

  // ------------------------------------------------------------------ runs

  datatype Thread =
    | Idle                                       // waits for a change
    | Waiting(generation: nat, name: string)     // waits for quiet
    | Applying(generation: nat, name: string)
    | Settling(generation: nat, name: string)
    | Gone

  /** The names accepted and the names passed on, whether advertising the last of
      these failed, the name of the last edit, accepted or not, and the last name
      that advertising worked for. */
  datatype History = History(accepted: seq<string>, applied: seq<string>, failed: bool, wanted: string, advertised: string)

  datatype System = System(shared: Shared, thread: Thread, history: History)

  datatype Event = Edits(name: string) | Wakes | Superseded | QuietPasses | Applies(changed: bool) | Settles | Quits | Leaves

  function Start(name: string): System {
    System(Shared(0, "", name, false), Idle, History([], [], false, name, name))
  }

  predicate Enabled(s: System, e: Event) {
    match e
    case Edits(_) => true
    case Wakes => s.thread.Idle? && s.shared.generation > 0 && !s.shared.quit
    case Superseded => s.thread.Waiting? && s.shared.generation != s.thread.generation && !s.shared.quit
    case QuietPasses => s.thread.Waiting? && s.shared.generation == s.thread.generation && !s.shared.quit
    case Applies(_) => s.thread.Applying?
    case Settles => s.thread.Settling?
    case Quits => true
    case Leaves => (s.thread.Idle? || s.thread.Waiting?) && s.shared.quit
  }

  function Next(s: System, e: Event): System
    requires Enabled(s, e)
  {
    match e
    case Edits(name) =>
      System(Update(s.shared, name), s.thread,
             s.history.(wanted := Resolved(name),
                        accepted := if Accepts(s.shared, name) then s.history.accepted + [Resolved(name)]
                                    else s.history.accepted))
    case Wakes => s.(thread := Waiting(s.shared.generation, s.shared.pending))
    case Superseded => s.(thread := Idle)
    case QuietPasses => s.(thread := Applying(s.thread.generation, s.thread.name))
    case Applies(changed) =>
      var name := s.thread.name;
      System(Apply(s.shared, name, changed), Settling(s.thread.generation, name),
             s.history.(applied := s.history.applied + [name], failed := !changed && name != s.history.advertised,
                        advertised := if changed then name else s.history.advertised))
    case Settles => s.(shared := Settle(s.shared, s.thread.generation), thread := Idle)
    case Quits => s.(shared := s.shared.(quit := true))
    case Leaves => s.(thread := Gone)
  }

  predicate LastIs(names: seq<string>, name: string) {
    names != [] && names[|names| - 1] == name
  }

  predicate Holds(t: Thread) {
    t.Waiting? || t.Applying? || t.Settling?
  }

  predicate Inv(s: System) {
    var h := s.history;
    && s.shared.serverName == h.advertised
    && (s.shared.generation > 0 ==> LastIs(h.accepted, s.shared.pending) && h.wanted == s.shared.pending)
    && (s.shared.generation == 0 ==>
          && (h.accepted == [] || (h.applied != [] && LastIs(h.accepted, h.applied[|h.applied| - 1])))
          && (h.wanted == s.shared.serverName || (h.failed && LastIs(h.applied, h.wanted))))
    && (Holds(s.thread) ==>
          && 0 < s.thread.generation <= s.shared.generation
          && (s.thread.generation == s.shared.generation ==> s.thread.name == s.shared.pending))
    && (s.thread.Settling? ==>
          LastIs(h.applied, s.thread.name) && (h.failed || s.shared.serverName == s.thread.name))
  }

  lemma StepKeeps(s: System, e: Event)
    requires Inv(s) && Enabled(s, e)
    ensures Inv(Next(s, e))
  {
  }

  predicate Legal(s: System, events: seq<Event>)
    decreases |events|
  {
    events != [] ==> Enabled(s, events[0]) && Legal(Next(s, events[0]), events[1..])
  }

  function After(s: System, events: seq<Event>): System
    requires Legal(s, events)
    decreases |events|
  {
    if events == [] then s else After(Next(s, events[0]), events[1..])
  }

  lemma {:induction false} RunKeeps(s: System, events: seq<Event>)
    requires Inv(s) && Legal(s, events)
    ensures Inv(After(s, events))
    decreases |events|
  {
    if events != [] {
      StepKeeps(s, events[0]);
      RunKeeps(Next(s, events[0]), events[1..]);
    }
  }

  /** In every interleaving: whenever no change is in flight, the last name passed
      on is the last one accepted; while one is, that name is pending. */
  lemma NoEditLost(name: string, events: seq<Event>)
    requires Legal(Start(name), events)
    ensures var s := After(Start(name), events);
            var h := s.history;
            && (s.shared.generation == 0 && h.accepted != [] ==>
                  h.applied != [] && h.applied[|h.applied| - 1] == h.accepted[|h.accepted| - 1])
            && (s.shared.generation > 0 ==> LastIs(h.accepted, s.shared.pending))
  {
    RunKeeps(Start(name), events);
  }

  /** The server's name is the last one that advertising worked for, the name it
      started with before. */
  lemma ServerNameIsAdvertised(name: string, events: seq<Event>)
    requires Legal(Start(name), events)
    ensures var s := After(Start(name), events); s.shared.serverName == s.history.advertised
  {
    RunKeeps(Start(name), events);
  }

  /** An edit schedules a change unless it repeats the pending name, or without one
      the server's; no name stands for the receiver's own. */
  lemma EditSchedules(s: System, name: string)
    ensures var meant, t := if name == "" then "OBS AirPlay" else name, Next(s, Edits(name)).shared;
            var repeated := if s.shared.generation == 0 then meant == s.shared.serverName else meant == s.shared.pending;
            t == if repeated then s.shared else s.shared.(pending := meant, generation := s.shared.generation + 1)
    ensures Next(s, Edits(name)).history.wanted == if name == "" then "OBS AirPlay" else name
  {
  }

  /** A name that is passed on becomes the server's where the change succeeds; it
      has failed where it did not and the name is a new one. */
  lemma ApplyingRecords(s: System, changed: bool)
    requires s.thread.Applying? && s.shared.serverName == s.history.advertised
    ensures var name, t := s.thread.name, Next(s, Applies(changed));
      && t.shared == (if changed then s.shared.(serverName := name) else s.shared)
      && t.history.applied == s.history.applied + [name]
      && (t.history.failed <==> !changed && name != s.shared.serverName)
  {
  }

  /** After the plugin has asked the thread to quit, it passes on no name but the
      one it is about to apply. */
  lemma {:induction false} QuittingStops(s: System, events: seq<Event>)
    requires Legal(s, [Quits] + events)
    ensures var t := After(s, [Quits] + events);
            |t.history.applied| <= |s.history.applied| + (if s.thread.Applying? then 1 else 0)
            && (s.thread.Idle? || s.thread.Waiting? ==> t.thread == s.thread || t.thread.Gone?)
  {
    var all := [Quits] + events;
    assert all[0] == Quits && all[1..] == events;
    StopsOnceQuit(Next(s, Quits), events);
  }

  lemma {:induction false} StopsOnceQuit(s: System, events: seq<Event>)
    requires s.shared.quit && Legal(s, events)
    ensures var t := After(s, events);
            |t.history.applied| <= |s.history.applied| + (if s.thread.Applying? then 1 else 0)
            && (s.thread.Idle? || s.thread.Waiting? ==> t.thread == s.thread || t.thread.Gone?)
            && (s.thread.Gone? ==> t.thread.Gone?)
    decreases |events|
  {
    if events != [] { StopsOnceQuit(Next(s, events[0]), events[1..]); }
  }

  /** Settling ends the change unless a newer one came. */
  lemma SettlingEnds(s: System)
    requires s.thread.Settling?
    ensures Next(s, Settles).shared ==
      if s.shared.generation == s.thread.generation then s.shared.(generation := 0) else s.shared
  {
  }

  /** The name the user typed last is pending or advertised, unless advertising
      that very name failed. */
  lemma LastEditCounts(name: string, events: seq<Event>)
    requires Legal(Start(name), events)
    ensures var s := After(Start(name), events);
            if s.shared.generation > 0 then s.shared.pending == s.history.wanted
            else s.shared.serverName == s.history.wanted || (s.history.failed && LastIs(s.history.applied, s.history.wanted))
  {
    RunKeeps(Start(name), events);
  }

  /** A name is passed on from a wait only if none was accepted during that wait. */
  lemma OnlyQuietNamesApply(name: string, events: seq<Event>)
    requires Legal(Start(name), events) && Enabled(After(Start(name), events), QuietPasses)
    ensures var s := After(Start(name), events);
            LastIs(s.history.accepted, s.thread.name) && s.thread.name == s.history.wanted
  {
    RunKeeps(Start(name), events);
  }

  /** The thread's own steps left until nothing is in flight, if no edit comes. */
  function Rank(s: System): nat {
    match s.thread
    case Idle => if s.shared.generation > 0 then 4 else 0
    case Waiting(generation, _) => if generation == s.shared.generation then 3 else 5
    case Applying(generation, _) => if generation == s.shared.generation then 2 else 6
    case Settling(generation, _) => if generation == s.shared.generation then 1 else 5
    case Gone => 0
  }

  /** Left alone, the thread gets there: it always has a step while a change is in
      flight, and each of its steps leads nearer. */
  lemma ThreadGetsThere(s: System)
    requires Inv(s) && !s.shared.quit && !s.thread.Gone?
    ensures Rank(s) == 0 <==> s.thread.Idle? && s.shared.generation == 0
    ensures Rank(s) > 0 ==>
      Enabled(s, Wakes) || Enabled(s, Superseded) || Enabled(s, QuietPasses) || Enabled(s, Settles)
      || (Enabled(s, Applies(true)) && Enabled(s, Applies(false)))
    ensures forall e: Event :: !e.Edits? && !e.Quits? && Enabled(s, e) ==> Rank(Next(s, e)) < Rank(s)
  {
  }

  /** And asked to quit it can always leave, once it has settled what it applies. */
  lemma ThreadLeaves(s: System)
    requires !s.thread.Gone? && Enabled(s, Quits)
    ensures var t := Next(s, Quits);
            match t.thread
            case Applying(_, _) => Enabled(t, Applies(true)) && Enabled(t, Applies(false))
            case Settling(_, _) => Enabled(t, Settles)
            case _ => Enabled(t, Leaves)
  {
  }
}
