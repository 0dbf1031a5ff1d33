/** The semaphore between the submitting thread and the decoder's buffer callbacks
    (src/video/mmal.c).

    It starts at one.  The thread waits before it takes a buffer from the pool; the callback
    releases the buffer to the pool and posts.  The error exits of the submit loop release a
    buffer, or find none, without a post. */
module MmalSemaphore {

  const POOL_SIZE := 5

  /** Where the submitting thread is with its current buffer. */
  datatype Thread = Idle | Waited | Holding

  datatype State = State(
    semaphore: nat,
    pool: nat,          // buffers in pool_in's queue
    thread: Thread,
    atDecoder: nat,     // sent, callback not begun
    released: nat,      // callback has released the buffer and not posted yet
    lost: nat)          // error exits that kept the token

  datatype Action =
    | Wait            // vcos_semaphore_wait returns
    | GetBuffer       // mmal_queue_get, either result
    | Send            // mmal_port_send_buffer succeeds
    | Abandon         // buffer too small, or the send fails: the buffer is released
    | CallbackRelease
    | CallbackPost

  predicate Enabled(s: State, a: Action)
  {
    match a
    case Wait => s.thread == Idle && s.semaphore > 0
    case GetBuffer => s.thread == Waited
    case Send => s.thread == Holding
    case Abandon => s.thread == Holding
    case CallbackRelease => s.atDecoder > 0
    case CallbackPost => s.released > 0
  }

  function Step(s: State, a: Action): State
    requires Enabled(s, a)
  {
    match a
    case Wait => s.(semaphore := s.semaphore - 1, thread := Waited)
    case GetBuffer =>
      if s.pool > 0 then s.(pool := s.pool - 1, thread := Holding)
      else s.(thread := Idle, lost := s.lost + 1) // "Video buffer full"
    case Send => s.(thread := Idle, atDecoder := s.atDecoder + 1)
    case Abandon => s.(thread := Idle, pool := s.pool + 1, lost := s.lost + 1)
    case CallbackRelease => s.(atDecoder := s.atDecoder - 1, pool := s.pool + 1, released := s.released + 1)
    case CallbackPost => s.(released := s.released - 1, semaphore := s.semaphore + 1)
  }

  const START := State(1, POOL_SIZE, Idle, 0, 0, 0)

  predicate Possible(s: State, actions: seq<Action>)
    decreases |actions|
  {
    actions == [] || (Enabled(s, actions[0]) && Possible(Step(s, actions[0]), actions[1..]))
  }

  function After(s: State, actions: seq<Action>): State
    requires Possible(s, actions)
    decreases |actions|
  {
    if actions == [] then s else After(Step(s, actions[0]), actions[1..])
  }

  /** Buffers taken and not yet posted for. */
  function Outstanding(s: State): nat
  {
    (if s.thread == Idle then 0 else 1) + s.atDecoder + s.released
  }

  /** Every token is accounted for, and so is every buffer. */
  predicate Balanced(s: State)
  {
    && s.semaphore + Outstanding(s) + s.lost == 1
    && s.pool + (if s.thread == Holding then 1 else 0) + s.atDecoder == POOL_SIZE
  }

  lemma {:induction false} RunKeepsBalance(s: State, actions: seq<Action>)
    requires Balanced(s) && Possible(s, actions)
    ensures Balanced(After(s, actions))
    decreases |actions|
  {
    if actions != [] {
      RunKeepsBalance(Step(s, actions[0]), actions[1..]);
    }
  }

  /** In every interleaving: at most one buffer is out at a time, so a thread that got past the
      wait always finds a buffer, and the full-pool exit is never taken. */
  lemma PoolNeverEmptyAfterWait(actions: seq<Action>)
    requires Possible(START, actions)
    ensures var s := After(START, actions);
            && Outstanding(s) <= 1
            && (s.thread == Waited ==> s.pool == POOL_SIZE && Step(s, GetBuffer).thread == Holding)
  {
    RunKeepsBalance(START, actions);
    BalanceFillsPool(After(START, actions));
  }

  lemma BalanceFillsPool(s: State)
    requires Balanced(s)
    ensures Outstanding(s) <= 1
    ensures s.thread == Waited ==> s.pool == POOL_SIZE && Step(s, GetBuffer).thread == Holding
  {
  }

  /** An error exit: the only actions that lose a token. */
  predicate LosesToken(a: Action) { a.Abandon? }

  lemma {:induction false} LostCountsExits(s: State, actions: seq<Action>)
    requires Balanced(s) && Possible(s, actions)
    ensures After(s, actions).lost == s.lost + |Exits(actions)|
    decreases |actions|
  {
    if actions != [] {
      LostCountsExits(Step(s, actions[0]), actions[1..]);
    }
  }

  function Exits(actions: seq<Action>): seq<Action>
  {
    if actions == [] then []
    else (if LosesToken(actions[0]) then [actions[0]] else []) + Exits(actions[1..])
  }

  lemma {:induction false} ExitsNone(actions: seq<Action>)
    ensures Exits(actions) == [] <==> forall k :: 0 <= k < |actions| ==> !LosesToken(actions[k])
    decreases |actions|
  {
    if actions != [] {
      ExitsNone(actions[1..]);
      assert forall k :: 0 < k < |actions| ==> actions[k] == actions[1..][k - 1];
      assert forall k :: 0 <= k < |actions| - 1 ==> actions[1..][k] == actions[k + 1];
    }
  }

  /** The semaphore and the outstanding buffers make one exactly while no unit was abandoned
      with a buffer in hand. */
  lemma TokenKeptIff(actions: seq<Action>)
    requires Possible(START, actions)
    ensures var s := After(START, actions);
            s.semaphore + Outstanding(s) == 1 <==> forall k :: 0 <= k < |actions| ==> !LosesToken(actions[k])
  {
    TokenKeptFrom(START, actions);
  }

  lemma TokenKeptFrom(s: State, actions: seq<Action>)
    requires Balanced(s) && s.lost == 0 && Possible(s, actions)
    ensures var t := After(s, actions);
            t.semaphore + Outstanding(t) == 1 <==> forall k :: 0 <= k < |actions| ==> !LosesToken(actions[k])
  {
    RunKeepsBalance(s, actions);
    LostCountsExits(s, actions);
    ExitsNone(actions);
  }

  /** After one such exit everything stops: the thread never gets past the wait again, and no
      callback is left to post. */
  lemma {:induction false} AbandonIsLast(s: State, actions: seq<Action>, k: nat)
    requires Balanced(s) && Possible(s, actions)
    requires k < |actions| && LosesToken(actions[k])
    ensures k == |actions| - 1
    decreases |actions|
  {
    var t := Step(s, actions[0]);
    if k == 0 {
      assert t.semaphore == 0 && Outstanding(t) == 0;
    } else {
      AbandonIsLast(t, actions[1..], k - 1);
    }
  }

  /** Without such an exit the token always comes back: from any reachable state in which the
      thread is between buffers, the pending callbacks alone re-enable the wait. */
  lemma TokenComesBack(actions: seq<Action>)
    requires Possible(START, actions)
    requires forall k :: 0 <= k < |actions| ==> !LosesToken(actions[k])
    requires After(START, actions).thread == Idle
    ensures var s := After(START, actions);
            var callbacks :=
              if s.semaphore > 0 then []
              else if s.released > 0 then [CallbackPost] else [CallbackRelease, CallbackPost];
            Possible(s, callbacks) && Enabled(After(s, callbacks), Wait)
  {
    RunKeepsBalance(START, actions);
    TokenKeptIff(actions);
    var s := After(START, actions);
    if s.semaphore == 0 {
      if s.released > 0 {
        assert [CallbackPost][1..] == [];
      } else {
        assert [CallbackRelease, CallbackPost][1..] == [CallbackPost];
        assert [CallbackPost][1..] == [];
      }
    }
  }

  /** A run that ends so: the first unit's buffer is abandoned, and nothing is enabled any more. */
  lemma FirstUnitAbandoned()
    ensures Possible(START, [Wait, GetBuffer, Abandon])
    ensures var s := After(START, [Wait, GetBuffer, Abandon]);
            s.semaphore + Outstanding(s) == 0 && forall a :: !Enabled(s, a)
  {
    var run := [Wait, GetBuffer, Abandon];
    assert run[1..] == [GetBuffer, Abandon] && run[1..][1..] == [Abandon] && run[1..][1..][1..] == [];
  }
}
