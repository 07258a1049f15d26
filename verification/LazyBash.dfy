/** The lazily spawned bash tool server: reuse while the network key stays, respawn when it changes, and
    retire the old server only once the new one is up (crates/savvagent-host/src/tools.rs). */
module LazyBash {
  import opened Base

  datatype NetOverride = Inherit | ForceAllow | ForceDeny

  datatype SpawnOutcome = ComesUp | CannotSpawn | CannotInit

  /** One tool call, with what the world would answer: the policy if it is asked, the new server if one is
      spawned. */
  datatype Call = Call(over: NetOverride, policy: bool, outcome: SpawnOutcome)

  /** A running server: the key it was spawned for, and whether its sandbox lets it use the network. */
  datatype Server = Server(id: nat, key: bool, net: bool)

  datatype Event = Asked | Up(s: Server) | Cancelled(s: Server) | Dispatched(s: Server) | Refused

  datatype Slot = Slot(active: Option<Server>, launched: nat)

  datatype Turn = Turn(log: seq<Event>, slot: Slot)

  function Resolved(call: Call): (net: bool)
    ensures net <==> call.over == ForceAllow || (call.over == Inherit && call.policy)
  {
    match call.over
    case ForceAllow => true
    case ForceDeny => false
    case Inherit => call.policy
  }

  predicate Reuses(slot: Slot, call: Call) {
    slot.active.Some? && slot.active.value.key == Resolved(call)
  }

  /** Does the call get to a server? */
  predicate Served(slot: Slot, call: Call) {
    Reuses(slot, call) || call.outcome.ComesUp?
  }

  /** One call, from the slot it finds to the slot it leaves.  A network setting that the user pinned in the
      sandbox configuration wins over the key. */
  function Handled(pin: Option<bool>, slot: Slot, call: Call): Turn {
    var asked := if call.over.Inherit? then [Asked] else [];
    if Reuses(slot, call) then Turn(asked + [Dispatched(slot.active.value)], slot)
    else if !call.outcome.ComesUp? then Turn(asked + [Refused], slot)
    else
      var s := Server(slot.launched, Resolved(call), GetOr(pin, Resolved(call)));
      var retired := if slot.active.Some? then [Cancelled(slot.active.value)] else [];
      Turn(asked + [Up(s)] + retired + [Dispatched(s)], Slot(Some(s), slot.launched + 1))
  }

  class BashServer {
    /** `tool_overrides[tool-bash].allow_net` of the sandbox configuration. */
    const pin: Option<bool>
    var active: Option<Server>
    var launched: nat

    constructor (pin: Option<bool>)
      ensures this.pin == pin && Now() == Slot(None, 0)
    {
      this.pin := pin;
      active := None;
      launched := 0;
    }

    function Now(): Slot
      reads `active, `launched
    {
      Slot(active, launched)
    }

    method Resolve(over: NetOverride, policy: bool) returns (allowNet: bool, log: seq<Event>)
      ensures allowNet == Resolved(Call(over, policy, ComesUp))
      ensures log == if over.Inherit? then [Asked] else []
    {
      log := [];
      match over {
        case ForceAllow => allowNet := true;
        case ForceDeny => allowNet := false;
        case Inherit =>
          log := [Asked];
          allowNet := policy;
      }
    }

    method Dispatch(call: Call) returns (log: seq<Event>)
      modifies `active, `launched
      ensures Turn(log, Now()) == Handled(pin, old(Now()), call)
    {
      var allowNet;
      allowNet, log := Resolve(call.over, call.policy);
      var cachedKey := if active.Some? then Some(active.value.key) else None;
      if cachedKey != Some(allowNet) {
        match call.outcome {
          case CannotSpawn => return log + [Refused];
          case CannotInit => return log + [Refused];
          case ComesUp =>
        }
        var server := Server(launched, allowNet, if pin.Some? then pin.value else allowNet);
        launched := launched + 1;
        log := log + [Up(server)];
        if active.Some? {
          log := log + [Cancelled(active.value)];
        }
        active := Some(server);
      }
      log := log + [Dispatched(active.value)];
    }

    method Shutdown() returns (log: seq<Event>)
      modifies `active
      ensures active == None
      ensures log == if old(active).Some? then [Cancelled(old(active).value)] else []
    {
      log := if active.Some? then [Cancelled(active.value)] else [];
      active := None;
    }
  }

  // ---------------------------------------------------------------------------------------------
  // Whole sessions
  // ---------------------------------------------------------------------------------------------

  /** The slot after a run of calls, and all that happened. */
  function Session(pin: Option<bool>, calls: seq<Call>): Turn {
    if calls == [] then Turn([], Slot(None, 0))
    else
      var before := Session(pin, calls[..|calls| - 1]);
      var turn := Handled(pin, before.slot, calls[|calls| - 1]);
      Turn(before.log + turn.log, turn.slot)
  }

  function AfterEvent(running: set<Server>, e: Event): set<Server> {
    if e.Up? then running + {e.s} else if e.Cancelled? then running - {e.s} else running
  }

  /** The servers that are up and not cancelled. */
  function Running(log: seq<Event>): set<Server> {
    if log == [] then {} else AfterEvent(Running(log[..|log| - 1]), log[|log| - 1])
  }

  function InSlot(slot: Slot): set<Server> {
    if slot.active.Some? then {slot.active.value} else {}
  }

  predicate SlotFits(pin: Option<bool>, slot: Slot) {
    slot.active.Some? ==>
      slot.active.value.id < slot.launched && slot.active.value.net == GetOr(pin, slot.active.value.key)
  }

  lemma {:induction false} SessionFits(pin: Option<bool>, calls: seq<Call>)
    ensures SlotFits(pin, Session(pin, calls).slot)
  {
    if calls != [] {
      SessionFits(pin, calls[..|calls| - 1]);
    }
  }

  /** In every session every call is either refused, and then it leaves the slot as it was, or it reaches one
      server: the one in the slot, spawned for the key the call resolved to, with the network the pin or the
      key gives it.  The policy is asked exactly when the call does not override it. */
  lemma EveryCall(pin: Option<bool>, calls: seq<Call>, k: nat)
    requires k < |calls|
    ensures var slot := Session(pin, calls[..k]).slot;
            var turn := Handled(pin, slot, calls[k]);
            && (Asked in turn.log <==> calls[k].over.Inherit?)
            && (Refused in turn.log <==> !Served(slot, calls[k]))
            && (Refused in turn.log ==> turn.slot == slot && turn.log[|turn.log| - 1] == Refused)
            && (Refused !in turn.log
                ==> turn.slot.active.Some? && turn.log[|turn.log| - 1] == Dispatched(turn.slot.active.value))
            && forall e <- turn.log | e.Dispatched? ::
                 && turn.slot.active == Some(e.s)
                 && (e.s.key <==> calls[k].over == ForceAllow || (calls[k].over == Inherit && calls[k].policy))
                 && (pin.None? ==> e.s.net == e.s.key)
                 && (pin.Some? ==> e.s.net == pin.value)
  {
    SessionFits(pin, calls[..k]);
    var slot := Session(pin, calls[..k]).slot;
    var turn := Handled(pin, slot, calls[k]);
    if Refused !in turn.log {
      assert turn.log[|turn.log| - 1] == Dispatched(turn.slot.active.value);
    }
  }

  /** What may be seen at any moment of a session: once a server is up some server stays up, never more than
      two are, and a call is dispatched to the only one there is. */
  ghost predicate GoodMoment(log: seq<Event>, n: nat)
    requires n <= |log|
  {
    && |Running(log[..n])| <= 2
    && (Running(log[..n]) == {} ==> forall e <- log[..n] :: !e.Up?)
    && (n > 0 && log[n - 1].Dispatched? ==> Running(log[..n]) == {log[n - 1].s})
    && (n > 0 && log[n - 1].Cancelled? ==> log[n - 1].s in Running(log[..n - 1]) && Running(log[..n]) != {})
  }

  lemma RunningSnoc(log: seq<Event>, e: Event)
    ensures Running(log + [e]) == AfterEvent(Running(log), e)
  {
    assert (log + [e])[..|log|] == log;
  }

  /** One more event: earlier moments stay as they were, so only the last one is to be looked at. */
  lemma GoodSnoc(log: seq<Event>, e: Event)
    requires forall n | 0 <= n <= |log| :: GoodMoment(log, n)
    requires GoodMoment(log + [e], |log| + 1)
    ensures forall n | 0 <= n <= |log + [e]| :: GoodMoment(log + [e], n)
  {
    hide Running;
    var longer := log + [e];
    forall n | 0 <= n <= |longer| ensures GoodMoment(longer, n) {
      if n <= |log| {
        assert longer[..n] == log[..n];
        assert GoodMoment(log, n);
        assert n > 0 ==> longer[..n - 1] == log[..n - 1];
      }
    }
  }

  /** An event that changes no server is good wherever its own condition holds. */
  lemma GoodQuiet(log: seq<Event>, e: Event)
    requires forall n | 0 <= n <= |log| :: GoodMoment(log, n)
    requires e.Asked? || e.Refused? || (e.Dispatched? && Running(log) == {e.s})
    ensures forall n | 0 <= n <= |log + [e]| :: GoodMoment(log + [e], n)
    ensures Running(log + [e]) == Running(log)
  {
    hide Running;
    RunningSnoc(log, e);
    var longer := log + [e];
    assert longer[..|log| + 1] == longer && log[..|log|] == log;
    assert GoodMoment(log, |log|);
    GoodSnoc(log, e);
  }

  lemma GoodUp(log: seq<Event>, s: Server)
    requires forall n | 0 <= n <= |log| :: GoodMoment(log, n)
    requires |Running(log)| <= 1
    ensures forall n | 0 <= n <= |log + [Up(s)]| :: GoodMoment(log + [Up(s)], n)
    ensures Running(log + [Up(s)]) == Running(log) + {s}
  {
    hide Running;
    RunningSnoc(log, Up(s));
    var longer := log + [Up(s)];
    assert longer[..|log| + 1] == longer;
    assert s in Running(longer);
    GoodSnoc(log, Up(s));
  }

  lemma GoodCancel(log: seq<Event>, prev: Server, next: Server)
    requires forall n | 0 <= n <= |log| :: GoodMoment(log, n)
    requires Running(log) == {prev, next} && prev != next
    ensures forall n | 0 <= n <= |log + [Cancelled(prev)]| :: GoodMoment(log + [Cancelled(prev)], n)
    ensures Running(log + [Cancelled(prev)]) == {next}
  {
    hide Running;
    RunningSnoc(log, Cancelled(prev));
    var longer := log + [Cancelled(prev)];
    assert longer[..|log| + 1] == longer && longer[..|log|] == log;
    assert Running(longer) == {next};
    assert next in Running(longer);
    GoodSnoc(log, Cancelled(prev));
  }

  /** The new server comes up, the old one goes, the call is dispatched. */
  lemma GoodRespawn(log: seq<Event>, slot: Slot, s: Server)
    requires forall n | 0 <= n <= |log| :: GoodMoment(log, n)
    requires Running(log) == InSlot(slot) && slot.active != Some(s)
    ensures var retired := if slot.active.Some? then [Cancelled(slot.active.value)] else [];
            var longer := log + ([Up(s)] + retired + [Dispatched(s)]);
            (forall n | 0 <= n <= |longer| :: GoodMoment(longer, n)) && Running(longer) == {s}
  {
    hide Running, GoodMoment;
    var retired := if slot.active.Some? then [Cancelled(slot.active.value)] else [];
    GoodUp(log, s);
    var l := log + [Up(s)];
    if slot.active.Some? {
      assert Running(l) == {slot.active.value, s};
      GoodCancel(l, slot.active.value, s);
      l := l + retired;
    }
    GoodQuiet(l, Dispatched(s));
    assert l + [Dispatched(s)] == log + ([Up(s)] + retired + [Dispatched(s)]);
  }

  /** One call keeps the log good and the slot the only running server. */
  lemma TurnIsGood(log: seq<Event>, pin: Option<bool>, slot: Slot, call: Call)
    requires forall n | 0 <= n <= |log| :: GoodMoment(log, n)
    requires Running(log) == InSlot(slot) && SlotFits(pin, slot)
    ensures var turn := Handled(pin, slot, call);
            && (forall n | 0 <= n <= |log + turn.log| :: GoodMoment(log + turn.log, n))
            && Running(log + turn.log) == InSlot(turn.slot)
  {
    hide Running, GoodMoment, GetOr;
    var turn := Handled(pin, slot, call);
    var l := log;
    if call.over.Inherit? {
      GoodQuiet(l, Asked);
      l := l + [Asked];
    }
    if Reuses(slot, call) {
      GoodQuiet(l, Dispatched(slot.active.value));
      assert l + [Dispatched(slot.active.value)] == log + turn.log;
    } else if !call.outcome.ComesUp? {
      GoodQuiet(l, Refused);
      assert l + [Refused] == log + turn.log;
    } else {
      var s := turn.slot.active.value;
      GoodRespawn(l, slot, s);
      var retired := if slot.active.Some? then [Cancelled(slot.active.value)] else [];
      assert l + ([Up(s)] + retired + [Dispatched(s)]) == log + turn.log;
    }
  }

  /** In every session, whatever spawns fail, every moment is good, and between calls the slot is the only
      server running. */
  lemma {:induction false} SessionIsGood(pin: Option<bool>, calls: seq<Call>)
    ensures var done := Session(pin, calls);
            && (forall n | 0 <= n <= |done.log| :: GoodMoment(done.log, n))
            && Running(done.log) == InSlot(done.slot)
  {
    hide Handled, GoodMoment, Running;
    if calls == [] {
      QuietStart();
    } else {
      var k := |calls| - 1;
      SessionIsGood(pin, calls[..k]);
      SessionFits(pin, calls[..k]);
      var before := Session(pin, calls[..k]);
      TurnIsGood(before.log, pin, before.slot, calls[k]);
    }
  }

  lemma QuietStart()
    ensures Running([]) == {} && GoodMoment([], 0)
  {
  }

  // ---------------------------------------------------------------------------------------------
  // How many servers are spawned
  // ---------------------------------------------------------------------------------------------

  /** The keys of the calls that reach a server. */
  function ServedKeys(pin: Option<bool>, calls: seq<Call>): seq<bool> {
    if calls == [] then []
    else
      var before, call := calls[..|calls| - 1], calls[|calls| - 1];
      ServedKeys(pin, before) + if Served(Session(pin, before).slot, call) then [Resolved(call)] else []
  }

  /** How many maximal runs of equal keys there are. */
  function Runs(keys: seq<bool>): nat {
    if keys == [] then 0
    else if |keys| > 1 && keys[|keys| - 1] == keys[|keys| - 2] then Runs(keys[..|keys| - 1])
    else Runs(keys[..|keys| - 1]) + 1
  }

  lemma RunsSnoc(keys: seq<bool>, key: bool)
    ensures Runs(keys + [key]) == Runs(keys) + if keys != [] && keys[|keys| - 1] == key then 0 else 1
  {
    assert (keys + [key])[..|keys|] == keys;
  }

  /** A server is spawned for every maximal run of equal keys among the calls that are served, and for
      nothing else; refused calls in between do not break a run. */
  lemma {:induction false} SpawnsAreRuns(pin: Option<bool>, calls: seq<Call>)
    ensures var slot := Session(pin, calls).slot;
            && slot.launched == Runs(ServedKeys(pin, calls))
            && (slot.active.None? <==> ServedKeys(pin, calls) == [])
            && (slot.active.Some? ==> slot.active.value.key == ServedKeys(pin, calls)[|ServedKeys(pin, calls)| - 1])
  {
    if calls != [] {
      var before, call := calls[..|calls| - 1], calls[|calls| - 1];
      SpawnsAreRuns(pin, before);
      var keys := ServedKeys(pin, before);
      RunsSnoc(keys, Resolved(call));
      assert keys + [] == keys;
    }
  }

  function Keys(calls: seq<Call>): (keys: seq<bool>)
    ensures |keys| == |calls|
    ensures forall k | 0 <= k < |calls| :: keys[k] == Resolved(calls[k])
  {
    seq(|calls|, k requires 0 <= k < |calls| => Resolved(calls[k]))
  }

  /** When no spawn fails the runs are those of all the calls. */
  lemma {:induction false} NoFailures(pin: Option<bool>, calls: seq<Call>)
    requires forall c <- calls :: c.outcome.ComesUp?
    ensures ServedKeys(pin, calls) == Keys(calls)
    ensures Session(pin, calls).slot.launched == Runs(Keys(calls))
  {
    if calls != [] {
      NoFailures(pin, calls[..|calls| - 1]);
      assert calls[|calls| - 1] in calls;
    }
    SpawnsAreRuns(pin, calls);
  }

  /** A session and its end: the dispatcher does what `Session` says, and nothing is left running. */
  method RunSession(pin: Option<bool>, calls: seq<Call>) returns (log: seq<Event>)
    ensures var done := Session(pin, calls);
            log == done.log + if done.slot.active.Some? then [Cancelled(done.slot.active.value)] else []
    ensures Running(log) == {}
  {
    hide Handled, Running;
    var bash := new BashServer(pin);
    log := [];
    for k := 0 to |calls|
      invariant fresh(bash) && bash.pin == pin
      invariant Session(pin, calls[..k]) == Turn(log, bash.Now())
      modifies bash
    {
      assert calls[..k + 1][..k] == calls[..k];
      var turn := bash.Dispatch(calls[k]);
      log := log + turn;
    }
    assert calls[..|calls|] == calls;
    SessionIsGood(pin, calls);
    ghost var before := log;
    var end := bash.Shutdown();
    log := log + end;
    if end == [] {
      assert log == before;
    } else {
      RunningSnoc(before, end[0]);
    }
  }
}
