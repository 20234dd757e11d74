/**
 * The session-lock example application: it locks the session, asks for one lock
 * surface per output with a fresh surface id, unlocks five seconds after the lock
 * is confirmed and exits once the compositor reports the unlock.
 */
module SessionLockApp {

  /** The largest `u128`. */
  const U128Max: nat := 0x1_0000_0000_0000_0000_0000_0000_0000_0000 - 1

  type U128 = n: nat | n <= U128Max

  /** The output events the lock example tells apart; the others are `OtherOutputEvent`. */
  datatype OutputEvent = Created | Removed | OtherOutputEvent

  /** The session-lock events the example tells apart; the others are `OtherLockEvent`. */
  datatype SessionLockEvent = Locked | Unlocked | OtherLockEvent

  /** The Wayland events, with the output handle `O` left opaque. */
  datatype WaylandEvent<O> = Output(event: OutputEvent, output: O) | SessionLock(lockEvent: SessionLockEvent) | OtherWaylandEvent

  datatype Message<O> = WaylandMessage(wayland: WaylandEvent<O>) | TimeUp | Ignore

  /** The commands the example issues. */
  datatype Command<O> =
    | Lock
    | GetLockSurface(id: U128, output: O)
    | SleepThen(seconds: nat, onWake: Message<O>)
    | Unlock

  /** The result of `update`: the commands of the returned `Command` (none for `Command::none()`), or a panic. */
  datatype Outcome<O> = Commands(commands: seq<Command<O>>) | Panicked

  /** The value of a `Locker`. */
  datatype State = State(maxSurfaceId: U128, exit: bool)

  /** `Locker::default()`. */
  const Initial: State := State(0, false)

  /** The session is unlocked five seconds after the lock is confirmed. */
  const UnlockDelaySeconds: nat := 5

  /**
   * `update` on state values. `next_surface_id` adds one to a `u128`, which panics
   * (with overflow checks on) once the largest id has been handed out.
   */
  function Step<O>(s: State, m: Message<O>): (r: (State, Outcome<O>))
    ensures r.1.Panicked? ==> r.0 == s
    ensures r.0.maxSurfaceId == s.maxSurfaceId || r.0.maxSurfaceId == s.maxSurfaceId + 1
  {
    match m
    case WaylandMessage(Output(Created, output)) =>
      if s.maxSurfaceId == U128Max then (s, Panicked)
      else
        var id := s.maxSurfaceId + 1;
        (s.(maxSurfaceId := id), Commands([GetLockSurface(id, output)]))
    case WaylandMessage(SessionLock(Locked)) => (s, Commands([SleepThen(UnlockDelaySeconds, TimeUp)]))
    case WaylandMessage(SessionLock(Unlocked)) => (s.(exit := true), Commands([]))
    case TimeUp => (s, Commands([Unlock]))
    case _ => (s, Commands([]))
  }

  /** A new output gets a lock surface whose id is one more than every id handed out so far. */
  lemma CreatedRequestsFreshSurface<O>(s: State, output: O)
    requires s.maxSurfaceId < U128Max
    ensures var (t, out) := Step(s, WaylandMessage(Output(Created, output)));
      && t == State(s.maxSurfaceId + 1, s.exit)
      && out == Commands([GetLockSurface(s.maxSurfaceId + 1, output)])
  {
  }

  /** Only a new output arriving once the largest `u128` id has been handed out panics. */
  lemma PanicInputs<O>(s: State, m: Message<O>)
    ensures Step(s, m).1.Panicked? <==>
      m.WaylandMessage? && m.wayland.Output? && m.wayland.event == Created && s.maxSurfaceId == U128Max
  {
  }

  /** Lock, timer and unlock messages leave the state alone; only `Unlocked` and `Created` change it. */
  lemma StateChanges<O>(s: State, m: Message<O>)
    ensures Step(s, m).1.Commands? && Step(s, m).0 != s ==>
      m == WaylandMessage(SessionLock(Unlocked)) || (m.WaylandMessage? && m.wayland.Output? && m.wayland.event == Created)
    ensures m == WaylandMessage(SessionLock(Locked)) ==> Step(s, m) == (s, Commands([SleepThen(UnlockDelaySeconds, TimeUp)]))
    ensures m == TimeUp ==> Step(s, m) == (s, Commands([Unlock]))
    ensures m == WaylandMessage(SessionLock(Unlocked)) ==> Step(s, m) == (State(s.maxSurfaceId, true), Commands([]))
  {
  }

  /** Any other message changes nothing and issues nothing. */
  lemma OthersInert<O>(s: State, m: Message<O>)
    requires !(m.WaylandMessage? && m.wayland.Output? && m.wayland.event == Created)
    requires m != WaylandMessage(SessionLock(Locked)) && m != WaylandMessage(SessionLock(Unlocked)) && m != TimeUp
    ensures Step(s, m) == (s, Commands([]))
  {
  }

  /** Nothing resets the exit flag, and surface ids never decrease. */
  lemma StepMonotone<O>(s: State, m: Message<O>)
    ensures s.exit ==> Step(s, m).0.exit
    ensures s.maxSurfaceId <= Step(s, m).0.maxSurfaceId
  {
  }

  /** The surface ids requested by a batch of commands, in order. */
  function SurfaceIds<O>(cmds: seq<Command<O>>): (ids: seq<U128>)
    ensures |ids| <= |cmds|
  {
    if cmds == [] then []
    else (if cmds[0].GetLockSurface? then [cmds[0].id] else []) + SurfaceIds(cmds[1..])
  }

  /** Runs `update` over a sequence of messages, stopping at a panic; returns the final state, the requested surface ids and whether every step returned. */
  function Run<O>(s: State, ms: seq<Message<O>>): (State, seq<U128>, bool)
    decreases |ms|
  {
    if ms == [] then (s, [], true)
    else
      var (t, out) := Step(s, ms[0]);
      if out.Panicked? then (s, [], false)
      else
        var (u, ids, ok) := Run(t, ms[1..]);
        (u, SurfaceIds(out.commands) + ids, ok)
  }

  predicate StrictlyIncreasing(ids: seq<int>)
  {
    forall i, j :: 0 <= i < j < |ids| ==> ids[i] < ids[j]
  }

  /**
   * Over any run the requested surface ids are strictly increasing (so pairwise distinct),
   * all above the starting counter and at most the final one, and a set exit flag stays set.
   */
  lemma {:induction false} RunIdsIncrease<O>(s: State, ms: seq<Message<O>>)
    ensures var (u, ids, _) := Run(s, ms);
      && StrictlyIncreasing(ids)
      && (forall i :: 0 <= i < |ids| ==> s.maxSurfaceId < ids[i] <= u.maxSurfaceId)
      && s.maxSurfaceId <= u.maxSurfaceId
      && (s.exit ==> u.exit)
    decreases |ms|
  {
    if ms != [] {
      var (t, out) := Step(s, ms[0]);
      if out.Commands? {
        RunIdsIncrease(t, ms[1..]);
        var (u, rest, _) := Run(t, ms[1..]);
        var here := SurfaceIds(out.commands);
        assert here == [] || (here == [t.maxSurfaceId] && t.maxSurfaceId == s.maxSurfaceId + 1) by {
          match ms[0]
          case WaylandMessage(Output(Created, _)) =>
            assert SurfaceIds(out.commands) == [out.commands[0].id] + SurfaceIds(out.commands[1..]);
          case WaylandMessage(SessionLock(Locked)) =>
            assert SurfaceIds(out.commands) == SurfaceIds(out.commands[1..]);
          case TimeUp =>
            assert SurfaceIds(out.commands) == SurfaceIds(out.commands[1..]);
          case _ =>
        }
        assert Run(s, ms) == (u, here + rest, Run(t, ms[1..]).2);
      }
    }
  }

  /** The number of new outputs announced in a run of messages. */
  function CreatedCount<O>(ms: seq<Message<O>>): (n: nat)
    ensures n <= |ms|
  {
    if ms == [] then 0
    else (if ms[0].WaylandMessage? && ms[0].wayland.Output? && ms[0].wayland.event == Created then 1 else 0) + CreatedCount(ms[1..])
  }

  /**
   * A run that announces no more outputs than ids remain never panics, and it advances
   * the counter by exactly the number of outputs announced.
   */
  lemma {:induction false} RunWithinLimitCompletes<O>(s: State, ms: seq<Message<O>>)
    requires CreatedCount(ms) <= U128Max - s.maxSurfaceId
    ensures Run(s, ms).2
    ensures Run(s, ms).0.maxSurfaceId == s.maxSurfaceId + CreatedCount(ms)
    decreases |ms|
  {
    if ms != [] {
      var t := Step(s, ms[0]).0;
      assert Step(s, ms[0]).1.Commands?;
      assert t.maxSurfaceId == s.maxSurfaceId + CreatedCount(ms) - CreatedCount(ms[1..]);
      RunWithinLimitCompletes(t, ms[1..]);
    }
  }

  /** The application object. */
  class Locker {
    var maxSurfaceId: U128
    var exit: bool

    function Value(): State
      reads this
    {
      State(maxSurfaceId, exit)
    }

    /** `new`: the default locker, and the command that locks the session. */
    constructor ()
      ensures Value() == Initial
    {
      maxSurfaceId := 0;
      exit := false;
    }

    /** The command `new` returns together with the locker. */
    static function NewCommands<O>(): (cmds: seq<Command<O>>)
      ensures cmds == [Lock]
    {
      [Lock]
    }

    /** `next_surface_id`: one more than the previous maximum, which it becomes. */
    method NextSurfaceId() returns (id: U128)
      requires maxSurfaceId < U128Max
      modifies this`maxSurfaceId
      ensures id == old(maxSurfaceId) + 1 && maxSurfaceId == id
    {
      maxSurfaceId := maxSurfaceId + 1;
      id := maxSurfaceId;
    }

    /** `update`. */
    method Update<O>(m: Message<O>) returns (out: Outcome<O>)
      modifies this
      ensures (Value(), out) == Step(old(Value()), m)
    {
      match m {
        case WaylandMessage(Output(Created, output)) =>
          if maxSurfaceId == U128Max {
            return Panicked;
          }
          var id := NextSurfaceId();
          return Commands([GetLockSurface(id, output)]);
        case WaylandMessage(SessionLock(Locked)) =>
          return Commands([SleepThen(UnlockDelaySeconds, TimeUp)]);
        case WaylandMessage(SessionLock(Unlocked)) =>
          exit := true;
        case TimeUp =>
          return Commands([Unlock]);
        case _ =>
      }
      out := Commands([]);
    }

    /** `should_exit`. */
    function ShouldExit(): (r: bool)
      reads this
      ensures r == Value().exit
    {
      exit
    }
  }
}
