/**
 * The Onyxia encounter script (boss_onyxia.cpp): the table of eight breath
 * waypoints, the AI's waypoint choice, its three phases, the whelp counter and
 * the event handlers of `UpdateAI`. Engine calls (casts, summons, movement,
 * scheduling) are recorded in the AI's `trace`; the engine's inputs (health,
 * random draws, the due events, whether the boss is casting) are parameters.
 */
module Onyxia {
  import opened Bytes
  import opened Wrappers

  const SPELL_BREATH_NORTH_TO_SOUTH: uint32 := 17086
  const SPELL_BREATH_SOUTH_TO_NORTH: uint32 := 18351
  const SPELL_BREATH_EAST_TO_WEST: uint32 := 18576
  const SPELL_BREATH_WEST_TO_EAST: uint32 := 18609
  const SPELL_BREATH_SE_TO_NW: uint32 := 18564
  const SPELL_BREATH_NW_TO_SE: uint32 := 18584
  const SPELL_BREATH_SW_TO_NE: uint32 := 18596
  const SPELL_BREATH_NE_TO_SW: uint32 := 18617
  const SPELL_WING_BUFFET: uint32 := 18500
  const SPELL_FLAME_BREATH: uint32 := 18435
  const SPELL_CLEAVE: uint32 := 68868
  const SPELL_TAIL_SWEEP: uint32 := 68867
  const SPELL_BELLOWING_ROAR: uint32 := 18431

  /** The motion ids the script uses besides the waypoints 0 .. 7. */
  const POINT_MIDDLE_ROOM: nat := 8
  const POINT_LANDING: nat := 9
  const POINT_PHASE_2: nat := 10
  const POINT_TAKEOFF: nat := 11

  /** One waypoint: its id, the waypoint across the room, and the breath cast from it. */
  datatype OnyxMove = OnyxMove(locId: uint8, locIdEnd: uint8, spellId: uint32)

  /** `MoveData`, without the coordinates. */
  const MOVE_DATA: seq<OnyxMove> := [
    OnyxMove(0, 1, SPELL_BREATH_WEST_TO_EAST),     // west
    OnyxMove(1, 0, SPELL_BREATH_EAST_TO_WEST),     // east
    OnyxMove(2, 4, SPELL_BREATH_NW_TO_SE),         // north-west
    OnyxMove(3, 5, SPELL_BREATH_NE_TO_SW),         // north-east
    OnyxMove(4, 2, SPELL_BREATH_SE_TO_NW),         // south-east
    OnyxMove(5, 3, SPELL_BREATH_SW_TO_NE),         // south-west
    OnyxMove(6, 7, SPELL_BREATH_SOUTH_TO_NORTH),   // south
    OnyxMove(7, 6, SPELL_BREATH_NORTH_TO_SOUTH)    // north
  ]

  /** `MaxCount`: sizeof(MoveData) / sizeof(OnyxMove). */
  const MAX_COUNT: nat := 8

  /** Entry i of the table is waypoint i. */
  function MoveIndex(movePoint: int): (r: Option<nat>)
    ensures r.Some? <==> 0 <= movePoint < MAX_COUNT
    ensures r.Some? ==> r.value == movePoint && r.value < |MOVE_DATA| && MOVE_DATA[r.value].locId == movePoint
  {
    if 0 <= movePoint < MAX_COUNT then Some(movePoint) else None
  }

  /**
   * The waypoint across the room: `LocIdEnd` pairs the waypoints 0-1, 2-4,
   * 3-5 and 6-7, so it is an involution without a fixed point.
   */
  function Opposite(p: nat): (q: nat)
    requires p < MAX_COUNT
    ensures q < MAX_COUNT && q != p && MOVE_DATA[q].locIdEnd == p
  {
    MOVE_DATA[p].locIdEnd
  }

  /**
   * `GetMoveData`: the first table entry whose LocId is the current point,
   * or None (the null pointer); the table makes that entry `movePoint` itself.
   */
  method GetMoveData(movePoint: uint8) returns (r: Option<nat>)
    ensures r.Some? ==> r.value < MAX_COUNT && MOVE_DATA[r.value].locId == movePoint
    ensures r.Some? ==> forall j :: 0 <= j < r.value ==> MOVE_DATA[j].locId != movePoint
    ensures r.None? <==> forall j :: 0 <= j < MAX_COUNT ==> MOVE_DATA[j].locId != movePoint
    ensures r == MoveIndex(movePoint)
  {
    var i := 0;
    while i < MAX_COUNT
      invariant 0 <= i <= MAX_COUNT
      invariant forall j :: 0 <= j < i ==> MOVE_DATA[j].locId != movePoint
    {
      if MOVE_DATA[i].locId == movePoint {
        return Some(i);
      }
      i := i + 1;
    }
    return None;
  }

  /** A `urand(0, MaxCount - 1)` draw. */
  type PointDraw = d: int | 0 <= d < 8

  /** `SetNextRandomPoint`: draws at or above the current point are moved up by one. */
  function NextRandomPoint(movePoint: uint8, draw: PointDraw): (r: uint8)
    ensures r != movePoint && r <= MAX_COUNT
  {
    if draw >= movePoint then draw + 1 else draw
  }

  /**
   * From a waypoint, the eight draws reach each of the other seven waypoints
   * and point 8, each exactly once: the current point is never chosen, and
   * the draw 7 always yields 8, which names no waypoint.
   */
  lemma NextRandomPointChoices(movePoint: uint8, target: uint8)
    requires movePoint < MAX_COUNT
    ensures target <= MAX_COUNT && target != movePoint ==>
      exists draw: PointDraw :: NextRandomPoint(movePoint, draw) == target
    ensures forall d1: PointDraw, d2: PointDraw ::
      NextRandomPoint(movePoint, d1) == NextRandomPoint(movePoint, d2) ==> d1 == d2
    ensures NextRandomPoint(movePoint, 7) == MAX_COUNT && MoveIndex(MAX_COUNT).None?
  {
    if target <= MAX_COUNT && target != movePoint {
      var draw: PointDraw := if target > movePoint then target - 1 else target;
      assert NextRandomPoint(movePoint, draw) == target;
    }
  }

  datatype Phase = PhaseStart | PhaseBreath | PhaseEnd

  /** The order of the phases. */
  function Rank(p: Phase): nat
  {
    match p
    case PhaseStart => 0
    case PhaseBreath => 1
    case PhaseEnd => 2
  }

  datatype EventId =
    | BellowingRoar | FlameBreath | TailSweep | Cleave | WingBuffet
    | DeepBreath | Movement | Fireball | LairGuard | WhelpSpawn

  datatype Npc = Whelp | LairGuardNpc | TriggerNpc | OtherNpc

  /** An engine call the AI makes. */
  datatype AIEffect =
    | Schedule(event: EventId, minMs: nat, maxMs: nat)   // events.ScheduleEvent, a fixed delay when min == max
    | CastSpell(spellId: uint32)
    | MovePointTo(pointId: nat)
    | SummonCreature(npc: Npc)

  function ScheduleIn(e: EventId, ms: nat): AIEffect
  {
    Schedule(e, ms, ms)
  }

  /** How many of an event's two whelp summons succeed. */
  type WhelpsSummoned = n: int | 0 <= n <= 2

  /**
   * What the engine decides during one event: the `urand` draw
   * `SetNextRandomPoint` would make, and how many whelps are summoned. Each
   * summoned whelp is counted by `JustSummoned` inside `SummonCreature`, so
   * before the whelp event tests the counter.
   */
  datatype EventInput = EventInput(draw: PointDraw, whelps: WhelpsSummoned)

  /** The counter after `n` calls of `JustSummoned` for whelps: `uint8` increments. */
  function CountWhelps(count: uint8, n: WhelpsSummoned): (r: uint8)
    ensures count as int + n < 0x100 ==> r == count as int + n
    ensures (count as int + n - r) % 0x100 == 0
  {
    (count as int + n) % 0x100
  }

  /** The fields of `boss_onyxiaAI` the model follows; `pointData` is the index `PointData` points at. */
  datatype AIState = AIState(phase: Phase, movePoint: uint8, pointData: Option<nat>, summonWhelpCount: uint8, isMoving: bool)

  /** `RAID_MODE(20, 40)`. */
  function WhelpLimit(is25: bool): nat
  {
    if is25 then 40 else 20
  }

  /** `HealthBelowPct`: health below the truncated pct share of maximum health. */
  predicate HealthBelowPct(health: nat, maxHealth: nat, pct: nat)
  {
    health < (maxHealth * pct) / 100
  }

  /** The outcome of one event: the new state, the engine calls, and whether `UpdateAI` returns. */
  datatype EventOutcome = EventOutcome(next: AIState, effects: seq<AIEffect>, abort: bool)

  /** The event handlers of phases START and END: cast, then reschedule. */
  function GroundEvent(e: EventId): (es: seq<AIEffect>)
    ensures |es| == 2 <==> e in {BellowingRoar, FlameBreath, TailSweep, Cleave, WingBuffet}
    ensures |es| == 0 || |es| == 2
    ensures |es| == 2 ==> es[0].CastSpell? && es[1].Schedule? && es[1].event == e && es[1].minMs <= es[1].maxMs
  {
    match e
    case BellowingRoar => [CastSpell(SPELL_BELLOWING_ROAR), ScheduleIn(BellowingRoar, 30000)]
    case FlameBreath => [CastSpell(SPELL_FLAME_BREATH), Schedule(FlameBreath, 10000, 20000)]
    case TailSweep => [CastSpell(SPELL_TAIL_SWEEP), Schedule(TailSweep, 15000, 20000)]
    case Cleave => [CastSpell(SPELL_CLEAVE), Schedule(Cleave, 2000, 5000)]
    case WingBuffet => [CastSpell(SPELL_WING_BUFFET), Schedule(WingBuffet, 15000, 30000)]
    case _ => []
  }

  /** The event handlers of phase BREATH. */
  function AirEvent(s: AIState, is25: bool, e: EventId, input: EventInput): (r: EventOutcome)
    ensures r.next.phase == s.phase
    ensures r.abort <==> e == Movement && !s.isMoving && MoveIndex(NextRandomPoint(s.movePoint, input.draw)).None?
    ensures r.abort ==> r.effects == []
    ensures e != Movement ==> r.next.movePoint == s.movePoint && r.next.pointData == s.pointData && r.next.isMoving == s.isMoving
    ensures e != WhelpSpawn ==> r.next.summonWhelpCount == s.summonWhelpCount
    ensures !r.abort && e in {DeepBreath, Movement, Fireball, LairGuard, WhelpSpawn} ==>
      r.effects != [] && r.effects[|r.effects| - 1].Schedule? && r.effects[|r.effects| - 1].event == e
    ensures e !in {DeepBreath, Movement, Fireball, LairGuard, WhelpSpawn} ==> r == EventOutcome(s, [], false)
  {
    match e
    case DeepBreath =>
      if !s.isMoving then
        var cast := if s.pointData.Some? && s.pointData.value < MAX_COUNT
                    then [CastSpell(MOVE_DATA[s.pointData.value].spellId)] else [];
        EventOutcome(s, cast + [ScheduleIn(DeepBreath, 75000)], false)
      else EventOutcome(s, [ScheduleIn(DeepBreath, 1000)], false)
    case Movement =>
      if !s.isMoving then
        var point := NextRandomPoint(s.movePoint, input.draw);
        var data := MoveIndex(point);
        if data.None? then EventOutcome(s.(movePoint := point, pointData := None), [], true)
        else EventOutcome(s.(movePoint := point, pointData := data, isMoving := true),
                          [MovePointTo(MOVE_DATA[data.value].locId), ScheduleIn(Movement, 25000)], false)
      else EventOutcome(s, [ScheduleIn(Movement, 500)], false)
    case Fireball =>
      if !s.isMoving then EventOutcome(s, [ScheduleIn(Fireball, 8000)], false)
      else EventOutcome(s, [ScheduleIn(Fireball, 1000)], false)
    case LairGuard => EventOutcome(s, [SummonCreature(LairGuardNpc), ScheduleIn(LairGuard, 30000)], false)
    case WhelpSpawn =>
      var summons := [SummonCreature(Whelp), SummonCreature(Whelp)];
      var counted := CountWhelps(s.summonWhelpCount, input.whelps);
      if counted >= WhelpLimit(is25) then
        EventOutcome(s.(summonWhelpCount := 0), summons + [ScheduleIn(WhelpSpawn, 90000)], false)
      else EventOutcome(s.(summonWhelpCount := counted), summons + [ScheduleIn(WhelpSpawn, 500)], false)
    case _ => EventOutcome(s, [], false)
  }

  /** One pass of the `while (eventId = events.ExecuteEvent())` body in the current phase. */
  function ExecuteEvent(s: AIState, is25: bool, e: EventId, input: EventInput): (r: EventOutcome)
    ensures r.next.phase == s.phase
    ensures s.phase != PhaseBreath ==> r.next == s && !r.abort
    ensures r.abort ==> s.phase == PhaseBreath && e == Movement
  {
    if s.phase == PhaseBreath then AirEvent(s, is25, e, input)
    else EventOutcome(s, GroundEvent(e), false)
  }

  /** How one event changes the state and what it asks of the engine. */
  type Step = (AIState, EventId, EventInput) -> EventOutcome

  /** `step` is `ExecuteEvent` for one raid size, at every state, event and input. */
  ghost predicate Implements(step: Step, is25: bool)
  {
    forall s, e, d {:trigger ExecuteEvent(s, is25, e, d)} :: step(s, e, d) == ExecuteEvent(s, is25, e, d)
  }

  /**
   * Draining the due events from position k on: each is executed in turn; the
   * loop ends early when a handler returns from `UpdateAI` or the boss is
   * casting afterwards.
   */
  function Drain(step: Step, s: AIState, due: seq<EventId>, inputs: seq<EventInput>, casting: seq<bool>, k: nat): (r: (AIState, seq<AIEffect>))
    requires |inputs| == |due| && |casting| == |due| && k <= |due|
    decreases |due| - k
  {
    if k == |due| then (s, [])
    else
      var o := step(s, due[k], inputs[k]);
      if o.abort || casting[k] then (o.next, o.effects)
      else
        var rest := Drain(step, o.next, due, inputs, casting, k + 1);
        (rest.0, o.effects + rest.1)
  }

  /** One iteration of the event loop keeps it on track with `Drain` over all events. */
  lemma DrainAdvance(step: Step, target: (AIState, seq<AIEffect>), due: seq<EventId>, inputs: seq<EventInput>, casting: seq<bool>,
                     k: nat, before: AIState, done: seq<AIEffect>)
    requires |inputs| == |due| && |casting| == |due| && k < |due|
    requires target.0 == Drain(step, before, due, inputs, casting, k).0
    requires target.1 == done + Drain(step, before, due, inputs, casting, k).1
    ensures var o := step(before, due[k], inputs[k]);
      && (o.abort || casting[k] ==> target.0 == o.next && target.1 == done + o.effects)
      && (!(o.abort || casting[k]) ==>
            && target.0 == Drain(step, o.next, due, inputs, casting, k + 1).0
            && target.1 == (done + o.effects) + Drain(step, o.next, due, inputs, casting, k + 1).1)
  {
  }

  /** The inputs `UpdateAI` gets from the engine in one call. */
  datatype Tick = Tick(
    hasVictim: bool,          // UpdateVictim()
    health: nat,
    maxHealth: nat,
    castingBefore: bool,      // HasUnitState(UNIT_STATE_CASTING) after events.Update
    due: seq<EventId>,        // what events.ExecuteEvent() returns, in order
    inputs: seq<EventInput>,  // what the engine decides during each event
    castingAfter: seq<bool>)  // HasUnitState(UNIT_STATE_CASTING) after each event
  {
    predicate Valid()
    {
      |inputs| == |due| && |castingAfter| == |due|
    }
  }

  /** One call of `UpdateAI`: a phase change (and nothing more), or the due events. */
  function UpdateStep(s: AIState, step: Step, t: Tick): (r: (AIState, seq<AIEffect>))
    requires t.Valid()
    ensures !t.hasVictim ==> r == (s, [])
    ensures t.hasVictim && t.castingBefore ==> r.0.phase != s.phase || r == (s, [])
  {
    if !t.hasVictim then (s, [])
    else if s.phase == PhaseStart && HealthBelowPct(t.health, t.maxHealth, 65) then
      (s.(phase := PhaseBreath), [MovePointTo(POINT_PHASE_2)])
    else if s.phase == PhaseBreath && HealthBelowPct(t.health, t.maxHealth, 40) then
      (s.(phase := PhaseEnd, isMoving := false), [MovePointTo(POINT_LANDING), ScheduleIn(BellowingRoar, 30000)])
    else if t.castingBefore then (s, [])
    else Drain(step, s, t.due, t.inputs, t.castingAfter, 0)
  }

  lemma {:induction false} DrainKeepsPhase(step: Step, is25: bool, s: AIState, due: seq<EventId>, inputs: seq<EventInput>, casting: seq<bool>, k: nat)
    requires Implements(step, is25)
    requires |inputs| == |due| && |casting| == |due| && k <= |due|
    ensures Drain(step, s, due, inputs, casting, k).0.phase == s.phase
    decreases |due| - k
  {
    if k < |due| {
      var o := step(s, due[k], inputs[k]);
      assert o == ExecuteEvent(s, is25, due[k], inputs[k]);
      if !(o.abort || casting[k]) {
        DrainKeepsPhase(step, is25, o.next, due, inputs, casting, k + 1);
      }
    }
  }

  /**
   * The phases only advance, one at a time: START becomes BREATH exactly when
   * health is below 65%, BREATH becomes END exactly when it is below 40%, END
   * is final, and nothing changes phase without a victim.
   */
  lemma PhaseTransitions(s: AIState, step: Step, is25: bool, t: Tick)
    requires Implements(step, is25) && t.Valid()
    ensures var p := UpdateStep(s, step, t).0.phase;
      && (s.phase == PhaseStart ==>
            (p == PhaseBreath <==> t.hasVictim && HealthBelowPct(t.health, t.maxHealth, 65)) && (p == PhaseStart || p == PhaseBreath))
      && (s.phase == PhaseBreath ==>
            (p == PhaseEnd <==> t.hasVictim && HealthBelowPct(t.health, t.maxHealth, 40)) && (p == PhaseBreath || p == PhaseEnd))
      && (s.phase == PhaseEnd ==> p == PhaseEnd)
      && (Rank(p) == Rank(s.phase) || Rank(p) == Rank(s.phase) + 1)
  {
    DrainKeepsPhase(step, is25, s, t.due, t.inputs, t.castingAfter, 0);
  }

  /**
   * In phase BREATH the deep breath, movement and fireball events reschedule
   * themselves after 1000, 500 and 1000 ms while the boss flies, and after
   * 75000, 25000 and 8000 ms otherwise (movement only when its new point exists).
   */
  lemma BreathReschedule(s: AIState, is25: bool, input: EventInput)
    requires s.phase == PhaseBreath
    ensures s.isMoving ==>
      && ExecuteEvent(s, is25, DeepBreath, input).effects == [ScheduleIn(DeepBreath, 1000)]
      && ExecuteEvent(s, is25, Movement, input).effects == [ScheduleIn(Movement, 500)]
      && ExecuteEvent(s, is25, Fireball, input).effects == [ScheduleIn(Fireball, 1000)]
    ensures !s.isMoving ==>
      var deep := ExecuteEvent(s, is25, DeepBreath, input).effects;
      var move := ExecuteEvent(s, is25, Movement, input);
      && deep[|deep| - 1] == ScheduleIn(DeepBreath, 75000)
      && (!move.abort ==> move.effects[|move.effects| - 1] == ScheduleIn(Movement, 25000) && move.next.isMoving)
      && ExecuteEvent(s, is25, Fireball, input).effects == [ScheduleIn(Fireball, 8000)]
    ensures !ExecuteEvent(s, is25, DeepBreath, input).abort && !ExecuteEvent(s, is25, Fireball, input).abort
  {
  }

  /**
   * The whelp event summons two whelps and counts those summoned; when the
   * count reaches 20 (40 in 25-man) it resets the counter and waits 90 s,
   * otherwise it keeps the new count and comes back in 500 ms.
   */
  lemma WhelpSpawnRule(s: AIState, is25: bool, input: EventInput)
    requires s.phase == PhaseBreath
    ensures var o := ExecuteEvent(s, is25, WhelpSpawn, input);
      var counted := CountWhelps(s.summonWhelpCount, input.whelps);
      && o.effects[..2] == [SummonCreature(Whelp), SummonCreature(Whelp)]
      && |o.effects| == 3
      && !o.abort
      && (counted >= WhelpLimit(is25) ==> o.next == s.(summonWhelpCount := 0) && o.effects[2] == ScheduleIn(WhelpSpawn, 90000))
      && (counted < WhelpLimit(is25) ==> o.next == s.(summonWhelpCount := counted) && o.effects[2] == ScheduleIn(WhelpSpawn, 500))
  {
  }

  /**
   * In 10-man, the event that brings the count from 18 to 20 is the one that
   * pauses the whelps: the two whelps it summons are counted before the test.
   */
  lemma WhelpWaveEndsOnTwentieth(s: AIState)
    requires s.phase == PhaseBreath && s.summonWhelpCount == 18
    ensures var o := ExecuteEvent(s, false, WhelpSpawn, EventInput(0, 2));
      o.next.summonWhelpCount == 0 && o.effects[2] == ScheduleIn(WhelpSpawn, 90000)
    ensures var o := ExecuteEvent(s, false, WhelpSpawn, EventInput(0, 1));
      o.next.summonWhelpCount == 19 && o.effects[2] == ScheduleIn(WhelpSpawn, 500)
  {
  }

  /**
   * The draw 7 takes the boss to point 8, which has no waypoint: the movement
   * event then returns from `UpdateAI` without rescheduling itself, so no
   * movement event is pending any more.
   */
  lemma MovementStallsOnMissingPoint(s: AIState, is25: bool, whelps: WhelpsSummoned)
    requires s.phase == PhaseBreath && !s.isMoving && s.movePoint < MAX_COUNT
    ensures var o := ExecuteEvent(s, is25, Movement, EventInput(7, whelps));
      && o.abort && o.effects == [] && o.next.movePoint == MAX_COUNT && o.next.pointData.None?
  {
    assert NextRandomPoint(s.movePoint, 7) == MAX_COUNT;
  }

  /** A movement event never keeps the current waypoint. */
  lemma MovementLeavesPoint(s: AIState, is25: bool, input: EventInput)
    requires s.phase == PhaseBreath && !s.isMoving
    ensures ExecuteEvent(s, is25, Movement, input).next.movePoint != s.movePoint
  {
  }

  /** The breath spells that flip the waypoint: not the north-south pair. */
  predicate FlipsWaypoint(spellId: uint32)
  {
    spellId in {SPELL_BREATH_EAST_TO_WEST, SPELL_BREATH_WEST_TO_EAST, SPELL_BREATH_SE_TO_NW,
                SPELL_BREATH_NW_TO_SE, SPELL_BREATH_SW_TO_NE, SPELL_BREATH_NE_TO_SW}
  }

  class OnyxiaAI {
    var phase: Phase
    var movePoint: uint8
    var pointData: Option<nat>
    var summonWhelpCount: uint8
    var isMoving: bool
    /** RAID_MODE: whether this is the 25-player version. */
    const is25: bool
    /** The `switch` of `UpdateAI` for this raid size. */
    const handler: Step
    /** The engine calls made, oldest first. */
    var trace: seq<AIEffect>

    function State(): AIState
      reads this
    {
      AIState(phase, movePoint, pointData, summonWhelpCount, isMoving)
    }

    /** The state `Initialize` sets up from the draw urand(0, 5). */
    predicate FreshAt(draw: uint8)
      reads this
    {
      State() == AIState(PhaseStart, draw, Some(draw), 0, false)
    }

    constructor(is25: bool, draw: nat)
      requires draw <= 5
      ensures FreshAt(draw) && this.is25 == is25 && trace == []
      ensures Implements(handler, is25)
    {
      this.is25 := is25;
      handler := (s: AIState, e: EventId, d: EventInput) => ExecuteEvent(s, is25, e, d);
      trace := [];
      phase := PhaseStart;
      movePoint := draw;
      pointData := MoveIndex(draw);
      summonWhelpCount := 0;
      isMoving := false;
    }

    /** `Initialize`: phase START, a random waypoint among 0 .. 5 with its table entry, no whelps, not moving. */
    method Initialize(draw: nat)
      requires draw <= 5
      modifies this`phase, this`movePoint, this`pointData, this`summonWhelpCount, this`isMoving
      ensures FreshAt(draw)
    {
      phase := PhaseStart;
      movePoint := draw;
      pointData := GetMoveData(movePoint);
      summonWhelpCount := 0;
      isMoving := false;
    }

    /** `Reset`: `Initialize`; the rest of it is engine state. */
    method Reset(draw: nat)
      requires draw <= 5
      modifies this`phase, this`movePoint, this`pointData, this`summonWhelpCount, this`isMoving
      ensures FreshAt(draw)
    {
      Initialize(draw);
    }

    /** `JustSummoned`: each whelp is counted (a `uint8` increment). */
    method JustSummoned(npc: Npc)
      modifies this`summonWhelpCount
      ensures summonWhelpCount == if npc == Whelp then (old(summonWhelpCount) + 1) % 0x100 else old(summonWhelpCount)
    {
      if npc == Whelp {
        summonWhelpCount := (summonWhelpCount + 1) % 0x100;
      }
    }

    /**
     * `SpellHit`: a flipping breath sends the boss to the middle of the room
     * with the waypoint across the room as its next point. The source follows
     * `PointData` without a null check, so the current point must be a waypoint.
     */
    method SpellHit(spellId: uint32)
      requires FlipsWaypoint(spellId) ==> movePoint < MAX_COUNT
      modifies this`movePoint, this`pointData, this`trace
      ensures FlipsWaypoint(spellId) ==>
        && movePoint == Opposite(old(movePoint))
        && pointData == Some(old(movePoint) as nat)
        && trace == old(trace) + [MovePointTo(POINT_MIDDLE_ROOM)]
      ensures !FlipsWaypoint(spellId) ==> movePoint == old(movePoint) && pointData == old(pointData) && trace == old(trace)
    {
      if FlipsWaypoint(spellId) {
        pointData := GetMoveData(movePoint);
        movePoint := MOVE_DATA[pointData.value].locIdEnd;
        trace := trace + [MovePointTo(POINT_MIDDLE_ROOM)];
      }
    }

    /**
     * `MovementInform` for point movements: 8 (middle of the room) goes on to
     * the waypoint, 9 lands and schedules the phase-3 events, 10 summons the
     * trigger, takes off to point 11 and schedules the phase-2 events, 11 goes
     * to the waypoint; arriving anywhere else (a waypoint) ends the flight.
     */
    method MovementInform(pointMotion: bool, id: nat)
      modifies this`pointData, this`isMoving, this`trace
      ensures !pointMotion ==> pointData == old(pointData) && isMoving == old(isMoving) && trace == old(trace)
      ensures pointMotion && id == POINT_MIDDLE_ROOM ==>
        && pointData == MoveIndex(movePoint)
        && trace == old(trace) + (if pointData.Some? then [MovePointTo(movePoint as nat)] else [])
      ensures pointMotion && id == POINT_LANDING ==>
        trace == old(trace) + [ScheduleIn(BellowingRoar, 5000), Schedule(FlameBreath, 10000, 20000),
                               Schedule(TailSweep, 15000, 20000), Schedule(Cleave, 2000, 5000),
                               Schedule(WingBuffet, 15000, 30000)]
      ensures pointMotion && id == POINT_PHASE_2 ==>
        trace == old(trace) + [SummonCreature(TriggerNpc), MovePointTo(POINT_TAKEOFF),
                               ScheduleIn(WhelpSpawn, 5000), ScheduleIn(LairGuard, 15000), ScheduleIn(DeepBreath, 75000),
                               ScheduleIn(Movement, 10000), ScheduleIn(Fireball, 18000)]
      ensures pointMotion && id == POINT_TAKEOFF ==>
        trace == old(trace) + (if pointData.Some? && pointData.value < MAX_COUNT
                               then [MovePointTo(MOVE_DATA[pointData.value].locId)] else [])
      ensures pointMotion && id != POINT_MIDDLE_ROOM ==> pointData == old(pointData)
      ensures isMoving == if pointMotion && !(POINT_MIDDLE_ROOM <= id <= POINT_TAKEOFF) then false else old(isMoving)
    {
      if !pointMotion {
        return;
      }
      if id == POINT_MIDDLE_ROOM {
        pointData := GetMoveData(movePoint);
        if pointData.Some? {
          trace := trace + [MovePointTo(MOVE_DATA[pointData.value].locId as nat)];
        }
      } else if id == POINT_LANDING {
        trace := trace + [ScheduleIn(BellowingRoar, 5000), Schedule(FlameBreath, 10000, 20000),
                          Schedule(TailSweep, 15000, 20000), Schedule(Cleave, 2000, 5000),
                          Schedule(WingBuffet, 15000, 30000)];
      } else if id == POINT_PHASE_2 {
        trace := trace + [SummonCreature(TriggerNpc), MovePointTo(POINT_TAKEOFF),
                          ScheduleIn(WhelpSpawn, 5000), ScheduleIn(LairGuard, 15000), ScheduleIn(DeepBreath, 75000),
                          ScheduleIn(Movement, 10000), ScheduleIn(Fireball, 18000)];
      } else if id == POINT_TAKEOFF {
        if pointData.Some? && pointData.value < MAX_COUNT {
          trace := trace + [MovePointTo(MOVE_DATA[pointData.value].locId as nat)];
        }
      } else {
        isMoving := false;
      }
    }

    /** The `while` loop of `UpdateAI` over the due events. */
    method DrainEvents(due: seq<EventId>, inputs: seq<EventInput>, casting: seq<bool>)
      requires |inputs| == |due| && |casting| == |due|
      modifies this`movePoint, this`pointData, this`summonWhelpCount, this`isMoving, this`trace
      requires Implements(handler, is25)
      ensures State() == Drain(handler, old(State()), due, inputs, casting, 0).0
      ensures trace == old(trace) + Drain(handler, old(State()), due, inputs, casting, 0).1
    {
      ghost var step := handler;
      ghost var target := Drain(step, State(), due, inputs, casting, 0);
      var k := 0;
      ghost var done: seq<AIEffect> := [];
      while k < |due|
        invariant 0 <= k <= |due|
        invariant target.0 == Drain(step, State(), due, inputs, casting, k).0
        invariant target.1 == done + Drain(step, State(), due, inputs, casting, k).1
        invariant trace == old(trace) + done
        decreases |due| - k
      {
        ghost var before := State();
        ghost var traceBefore := trace;
        var abort := HandleEvent(due[k], inputs[k]);
        ghost var o := step(before, due[k], inputs[k]);
        assert trace == traceBefore + o.effects;
        assert trace == old(trace) + (done + o.effects);
        DrainAdvance(step, target, due, inputs, casting, k, before, done);
        if abort || casting[k] {
          return;
        }
        done := done + o.effects;
        k := k + 1;
      }
    }

    /**
     * The whelp event: two summons, each successful one counted by
     * `JustSummoned`, then the test of the counter.
     */
    method SpawnWhelps(input: EventInput)
      requires phase == PhaseBreath
      modifies this`summonWhelpCount, this`trace
      ensures State() == AirEvent(old(State()), is25, WhelpSpawn, input).next
      ensures trace == old(trace) + AirEvent(old(State()), is25, WhelpSpawn, input).effects
    {
      trace := trace + [SummonCreature(Whelp), SummonCreature(Whelp)];
      if input.whelps >= 1 {
        JustSummoned(Whelp);
      }
      if input.whelps == 2 {
        JustSummoned(Whelp);
      }
      if summonWhelpCount >= WhelpLimit(is25) {
        summonWhelpCount := 0;
        trace := trace + [ScheduleIn(WhelpSpawn, 90000)];
      } else {
        trace := trace + [ScheduleIn(WhelpSpawn, 500)];
      }
    }

    /** One event of the loop, as the `switch` handles it in the current phase. */
    method HandleEvent(e: EventId, input: EventInput) returns (abort: bool)
      modifies this`movePoint, this`pointData, this`summonWhelpCount, this`isMoving, this`trace
      requires Implements(handler, is25)
      ensures State() == handler(old(State()), e, input).next
      ensures trace == old(trace) + handler(old(State()), e, input).effects
      ensures abort == handler(old(State()), e, input).abort
    {
      assert handler(State(), e, input) == ExecuteEvent(State(), is25, e, input);
      abort := false;
      if phase != PhaseBreath {
        trace := trace + GroundEvent(e);
        return;
      }
      match e {
        case DeepBreath =>
          if !isMoving {
            if pointData.Some? && pointData.value < MAX_COUNT {
              trace := trace + [CastSpell(MOVE_DATA[pointData.value].spellId)];
            }
            trace := trace + [ScheduleIn(DeepBreath, 75000)];
          } else {
            trace := trace + [ScheduleIn(DeepBreath, 1000)];
          }
        case Movement =>
          if !isMoving {
            movePoint := NextRandomPoint(movePoint, input.draw);
            pointData := GetMoveData(movePoint);
            if pointData.None? {
              return true;
            }
            trace := trace + [MovePointTo(MOVE_DATA[pointData.value].locId), ScheduleIn(Movement, 25000)];
            isMoving := true;
          } else {
            trace := trace + [ScheduleIn(Movement, 500)];
          }
        case Fireball =>
          if !isMoving {
            trace := trace + [ScheduleIn(Fireball, 8000)];
          } else {
            trace := trace + [ScheduleIn(Fireball, 1000)];
          }
        case LairGuard =>
          trace := trace + [SummonCreature(LairGuardNpc), ScheduleIn(LairGuard, 30000)];
        case WhelpSpawn =>
          SpawnWhelps(input);
        case _ =>
      }
    }

    /** `UpdateAI`, with what it asks of the engine given in `t`. */
    method UpdateAI(t: Tick)
      requires t.Valid()
      modifies this`phase, this`movePoint, this`pointData, this`summonWhelpCount, this`isMoving, this`trace
      requires Implements(handler, is25)
      ensures State() == UpdateStep(old(State()), handler, t).0
      ensures trace == old(trace) + UpdateStep(old(State()), handler, t).1
    {
      if !t.hasVictim {
        return;
      }
      if phase == PhaseStart || phase == PhaseEnd {
        if phase == PhaseStart {
          if HealthBelowPct(t.health, t.maxHealth, 65) {
            phase := PhaseBreath;
            trace := trace + [MovePointTo(POINT_PHASE_2)];
            return;
          }
        }
      } else {
        if HealthBelowPct(t.health, t.maxHealth, 40) {
          phase := PhaseEnd;
          isMoving := false;
          trace := trace + [MovePointTo(POINT_LANDING), ScheduleIn(BellowingRoar, 30000)];
          return;
        }
      }
      if t.castingBefore {
        return;
      }
      DrainEvents(t.due, t.inputs, t.castingAfter);
    }
  }
}
