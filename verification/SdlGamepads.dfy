/** The gamepad slots of the SDL input back end (src/input/sdl.c).

    Sixteen slots; a slot's index is its controller id, and a mask of the slots in use goes to
    the host. */
module SdlGamepads {
  import opened Bits

  /** The identifying fields of GAMEPAD_STATE. */
  datatype Pad = Pad(sdlId: int, id: int, initialized: bool, controller: nat)

  /** What memset leaves behind. */
  const EMPTY := Pad(0, 0, false, 0)

  datatype State = State(pads: seq<Pad>, mask: nat, count: int)

  predicate IsPad(p: Pad, sdlId: int) { p.initialized && p.sdlId == sdlId }

  /** The first slot set up for a joystick, or -1. */
  function Find(pads: seq<Pad>, sdlId: int): (r: int)
    ensures -1 <= r < |pads|
    ensures r >= 0 ==> IsPad(pads[r], sdlId) && forall j :: 0 <= j < r ==> !IsPad(pads[j], sdlId)
    ensures r < 0 ==> forall j :: 0 <= j < |pads| ==> !IsPad(pads[j], sdlId)
  {
    if pads == [] then -1
    else if IsPad(pads[0], sdlId) then 0
    else var r := Find(pads[1..], sdlId); if r < 0 then -1 else r + 1
  }

  /** The first slot not in use, or -1. */
  function FreeSlot(pads: seq<Pad>): (r: int)
    ensures -1 <= r < |pads|
    ensures r >= 0 ==> !pads[r].initialized && forall j :: 0 <= j < r ==> pads[j].initialized
    ensures r < 0 ==> forall j :: 0 <= j < |pads| ==> pads[j].initialized
  {
    if pads == [] then -1
    else if !pads[0].initialized then 0
    else var r := FreeSlot(pads[1..]); if r < 0 then -1 else r + 1
  }

  datatype Event =
    | Added(canOpen: bool, controller: nat, sdlId: int)  // add_gamepad; canOpen: SDL could open it
    | Removed(sdlId: int)                               // remove_gamepad

  /** All slots are taken by other joysticks. */
  predicate Overflows(s: State, e: Event)
  {
    e.Added? && e.canOpen && Find(s.pads, e.sdlId) < 0 && FreeSlot(s.pads) < 0
  }

  function Step(s: State, e: Event): State
    requires |s.pads| == MAX_GAMEPADS
  {
    match e
    case Added(canOpen, controller, sdlId) =>
      if !canOpen || Find(s.pads, sdlId) >= 0 then s
      else
        var i := FreeSlot(s.pads);
        if i < 0 then State(s.pads[0 := s.pads[0].(controller := controller)], s.mask, s.count + 1)
        else State(s.pads[i := Pad(sdlId, i, true, controller)], SetBit(s.mask, i), s.count + 1)
    case Removed(sdlId) =>
      var i := Find(s.pads, sdlId);
      if i < 0 then s
      else State(s.pads[i := EMPTY], ClearBit(s.mask, i), s.count - 1)
  }

  function Initial(): State { State(seq(MAX_GAMEPADS, _ => EMPTY), 0, 0) }

  function After(s: State, es: seq<Event>): (t: State)
    requires |s.pads| == MAX_GAMEPADS
    ensures |t.pads| == MAX_GAMEPADS
    decreases |es|
  {
    if es == [] then s else After(Step(s, es[0]), es[1..])
  }

  /** How many times a pad was added in vain. */
  function Overflowed(s: State, es: seq<Event>): nat
    requires |s.pads| == MAX_GAMEPADS
    decreases |es|
  {
    if es == [] then 0
    else (if Overflows(s, es[0]) then 1 else 0) + Overflowed(Step(s, es[0]), es[1..])
  }

  function InUse(pads: seq<Pad>): (n: nat)
    ensures n <= |pads|
  {
    if pads == [] then 0 else (if pads[|pads| - 1].initialized then 1 else 0) + InUse(pads[..|pads| - 1])
  }

  /** Mask, ids and joysticks of the slots agree. */
  ghost predicate Consistent(s: State)
  {
    && |s.pads| == MAX_GAMEPADS
    && (forall i :: 0 <= i < MAX_GAMEPADS ==> (HasBit(s.mask, i) <==> s.pads[i].initialized))
    && (forall i :: 0 <= i < MAX_GAMEPADS && s.pads[i].initialized ==> s.pads[i].id == i)
    && (forall i :: 0 <= i < MAX_GAMEPADS && !s.pads[i].initialized ==> s.pads[i] == EMPTY)
    && (forall i, j :: 0 <= i < j < MAX_GAMEPADS && s.pads[i].initialized && s.pads[j].initialized ==>
          s.pads[i].sdlId != s.pads[j].sdlId)
  }

  lemma MaskAfterUpdate(mask: nat, i: nat)
    ensures forall j: nat :: HasBit(SetBit(mask, i), j) <==> i == j || HasBit(mask, j)
    ensures forall j: nat :: HasBit(ClearBit(mask, i), j) <==> i != j && HasBit(mask, j)
  {
    forall j: nat
      ensures HasBit(SetBit(mask, i), j) <==> i == j || HasBit(mask, j)
      ensures HasBit(ClearBit(mask, i), j) <==> i != j && HasBit(mask, j)
    {
      UpdateBit(mask, i, j);
    }
  }

  lemma {:induction false} InUseUpdate(pads: seq<Pad>, i: nat, p: Pad)
    requires i < |pads|
    ensures InUse(pads[i := p])
         == InUse(pads) - (if pads[i].initialized then 1 else 0) + (if p.initialized then 1 else 0)
    decreases |pads|
  {
    var n := |pads| - 1;
    if i < n {
      InUseUpdate(pads[..n], i, p);
      assert pads[i := p][..n] == pads[..n][i := p];
    } else {
      assert pads[i := p][..n] == pads[..n];
    }
  }

  lemma StepKeepsConsistent(s: State, e: Event)
    requires Consistent(s)
    ensures Consistent(Step(s, e))
    ensures Step(s, e).count - InUse(Step(s, e).pads)
         == s.count - InUse(s.pads) + if Overflows(s, e) then 1 else 0
  {
    match e
    case Added(canOpen, controller, sdlId) =>
      if canOpen && Find(s.pads, sdlId) < 0 {
        var i := FreeSlot(s.pads);
        if i < 0 {
          InUseUpdate(s.pads, 0, s.pads[0].(controller := controller));
        } else {
          MaskAfterUpdate(s.mask, i);
          InUseUpdate(s.pads, i, Pad(sdlId, i, true, controller));
        }
      }
    case Removed(sdlId) =>
      var i := Find(s.pads, sdlId);
      if i >= 0 {
        MaskAfterUpdate(s.mask, i);
        InUseUpdate(s.pads, i, EMPTY);
      }
  }

  lemma {:induction false} RunKeepsConsistent(s: State, es: seq<Event>)
    requires Consistent(s)
    ensures Consistent(After(s, es))
    ensures After(s, es).count - InUse(After(s, es).pads) == s.count - InUse(s.pads) + Overflowed(s, es)
    decreases |es|
  {
    if es != [] {
      StepKeepsConsistent(s, es[0]);
      RunKeepsConsistent(Step(s, es[0]), es[1..]);
    }
  }

  lemma {:induction false} NoneInUse(n: nat)
    ensures InUse(seq(n, _ => EMPTY)) == 0
  {
    if n > 0 {
      NoneInUse(n - 1);
      assert seq(n, _ => EMPTY)[..n - 1] == seq(n - 1, _ => EMPTY);
    }
  }

  /** In every run from start-up the slots stay consistent, and the pad count exceeds the slots
      in use by exactly the pads added while all sixteen slots were taken. */
  lemma SlotsFromStart(es: seq<Event>)
    ensures Consistent(After(Initial(), es))
    ensures After(Initial(), es).count == InUse(After(Initial(), es).pads) + Overflowed(Initial(), es)
  {
    forall i: nat ensures !HasBit(0, i) {
      EmptyMask(i);
    }
    NoneInUse(MAX_GAMEPADS);
    RunKeepsConsistent(Initial(), es);
  }

  /** Adding a new pad while a slot is free and removing it again restores mask, slots and count. */
  lemma AddThenRemove(s: State, controller: nat, sdlId: int)
    requires Consistent(s) && Find(s.pads, sdlId) < 0 && FreeSlot(s.pads) >= 0
    ensures Step(Step(s, Added(true, controller, sdlId)), Removed(sdlId)) == s
  {
    var i := FreeSlot(s.pads);
    var t := Step(s, Added(true, controller, sdlId));
    assert IsPad(t.pads[i], sdlId) && Find(t.pads, sdlId) == i;
    MaskAfterUpdate(s.mask, i);
    MaskAfterUpdate(t.mask, i);
    SameDigits(ClearBit(SetBit(s.mask, i), i), s.mask);
    assert t.pads[i := EMPTY] == s.pads;
  }

  predicate Known(s: State, sdlId: int)
  {
    exists i :: 0 <= i < |s.pads| && s.pads[i].initialized && s.pads[i].sdlId == sdlId
  }

  predicate Full(s: State)
  {
    forall i :: 0 <= i < |s.pads| ==> s.pads[i].initialized
  }

  /** Only slot i differs, and the mask has just bit i set or cleared. */
  ghost predicate SlotSet(s: State, t: State, i: nat, p: Pad)
    requires i < |s.pads|
  {
    t.pads == s.pads[i := p] &&
    forall j: nat :: HasBit(t.mask, j) <==> if j == i then p.initialized else HasBit(s.mask, j)
  }

  /** A pad that SDL can open and that has no slot goes to the lowest free one; with none free it
      only replaces the controller of slot 0.  Any other pad changes nothing. */
  lemma AddEffect(s: State, canOpen: bool, controller: nat, sdlId: int)
    requires Consistent(s)
    ensures var t := Step(s, Added(canOpen, controller, sdlId));
            && (!canOpen || Known(s, sdlId) ==> t == s)
            && (canOpen && !Known(s, sdlId) ==> t.count == s.count + 1)
            && (canOpen && !Known(s, sdlId) && Full(s) ==>
                  t.mask == s.mask && t.pads == s.pads[0 := s.pads[0].(controller := controller)])
            && (canOpen && !Known(s, sdlId) && !Full(s) ==>
                  exists i: nat ::
                    i < |s.pads| && !s.pads[i].initialized && (forall j :: 0 <= j < i ==> s.pads[j].initialized) &&
                    SlotSet(s, t, i, Pad(sdlId, i, true, controller)))
  {
    var t := Step(s, Added(canOpen, controller, sdlId));
    if canOpen && !Known(s, sdlId) && !Full(s) {
      var i := FreeSlot(s.pads);
      MaskAfterUpdate(s.mask, i);
      assert SlotSet(s, t, i, Pad(sdlId, i, true, controller));
    }
  }

  /** A pad that is taken out leaves its slot empty and its bit clear; an unknown one changes
      nothing. */
  lemma RemoveEffect(s: State, sdlId: int)
    requires Consistent(s)
    ensures var t := Step(s, Removed(sdlId));
            && (!Known(s, sdlId) ==> t == s)
            && (Known(s, sdlId) ==>
                  t.count == s.count - 1 && !Known(t, sdlId) &&
                  exists i: nat ::
                    i < |s.pads| && s.pads[i].initialized && s.pads[i].sdlId == sdlId &&
                    SlotSet(s, t, i, Pad(0, 0, false, 0)))
  {
    var t := Step(s, Removed(sdlId));
    if Known(s, sdlId) {
      var i := Find(s.pads, sdlId);
      MaskAfterUpdate(s.mask, i);
      assert SlotSet(s, t, i, Pad(0, 0, false, 0));
    }
  }

  // ---------------------------------------------------------------------------------------
  // The program's own table and loops

  class Gamepads {
    const gamepads: array<Pad>
    var activeGamepadMask: nat
    var sdlGamepads: int

    ghost predicate Valid()
      reads this
    {
      gamepads.Length == MAX_GAMEPADS
    }

    ghost function Fields(): State
      reads this, gamepads
    {
      State(gamepads[..], activeGamepadMask, sdlGamepads)
    }

    constructor ()
      ensures Valid() && Fields() == Initial() && fresh(gamepads)
    {
      gamepads := new Pad[MAX_GAMEPADS](_ => EMPTY);
      activeGamepadMask, sdlGamepads := 0, 0;
      new;
      assert gamepads[..] == Initial().pads;
    }

    /** get_gamepad: the index of the slot, -1 for no slot. */
    method GetGamepad(sdlId: int, add: bool) returns (slot: int)
      requires Valid()
      modifies this`activeGamepadMask, gamepads
      ensures -1 <= slot < MAX_GAMEPADS
      ensures Find(old(gamepads[..]), sdlId) >= 0 ==>
                slot == Find(old(gamepads[..]), sdlId) && Fields() == old(Fields())
      ensures Find(old(gamepads[..]), sdlId) < 0 && !add ==> slot == -1 && Fields() == old(Fields())
      ensures Find(old(gamepads[..]), sdlId) < 0 && add ==>
                var i := FreeSlot(old(gamepads[..]));
                && (i < 0 ==> slot == 0 && Fields() == old(Fields()))
                && (i >= 0 ==>
                      && slot == i && activeGamepadMask == SetBit(old(activeGamepadMask), i)
                      && gamepads[..] == old(gamepads[..])[i := Pad(sdlId, i, true, old(gamepads[i].controller))])
    {
      ghost var before := gamepads[..];
      var i := 0;
      while i < MAX_GAMEPADS
        invariant 0 <= i <= MAX_GAMEPADS && gamepads[..] == before
        invariant forall j :: 0 <= j < i ==> !IsPad(before[j], sdlId)
      {
        if gamepads[i].initialized && gamepads[i].sdlId == sdlId {
          return i;
        }
        i := i + 1;
      }
      if !add {
        return -1;
      }
      i := 0;
      while i < MAX_GAMEPADS
        invariant 0 <= i <= MAX_GAMEPADS && gamepads[..] == before && activeGamepadMask == old(activeGamepadMask)
        invariant forall j :: 0 <= j < i ==> before[j].initialized
      {
        if !gamepads[i].initialized {
          gamepads[i] := gamepads[i].(sdlId := sdlId, id := i, initialized := true);
          activeGamepadMask := SetBit(activeGamepadMask, i);
          return i;
        }
        i := i + 1;
      }
      return 0;
    }

    /** add_gamepad; `canOpen` says whether SDL could open the controller. */
    method AddGamepad(canOpen: bool, controller: nat, joystickId: int)
      requires Valid()
      modifies this, gamepads
      ensures Valid() && Fields() == Step(old(Fields()), Added(canOpen, controller, joystickId))
    {
      if !canOpen {
        return;
      }
      var state := GetGamepad(joystickId, false);
      if state >= 0 {
        return;
      }
      state := GetGamepad(joystickId, true);
      gamepads[state] := gamepads[state].(controller := controller);
      sdlGamepads := sdlGamepads + 1;
    }

    /** remove_gamepad */
    method RemoveGamepad(sdlId: int)
      requires Valid()
      modifies this, gamepads
      ensures Valid() && Fields() == Step(old(Fields()), Removed(sdlId))
    {
      var i := 0;
      while i < MAX_GAMEPADS
        invariant 0 <= i <= MAX_GAMEPADS && Fields() == old(Fields())
        invariant forall j :: 0 <= j < i ==> !IsPad(gamepads[j], sdlId)
      {
        if gamepads[i].initialized && gamepads[i].sdlId == sdlId {
          activeGamepadMask := ClearBit(activeGamepadMask, i);
          gamepads[i] := EMPTY;
          sdlGamepads := sdlGamepads - 1;
          break;
        }
        i := i + 1;
      }
    }
  }
}
