/** The router's persistent settings: the routing mode, optimizer effort,
    behaviour flags and default track and via sizes. */
module RoutingSettings {
  import opened Wrappers

  /** `PNS_MODE`. */
  datatype Mode = MarkObstacles | Shove | Walkaround | Smart

  /** `PNS_OPTIMIZATION_EFFORT`. */
  datatype OptimizationEffort = Low | Medium | Full

  /** The subset of `DIRECTION_45` the settings produce. */
  datatype Direction45 = N | NE

  /** The enumerator values `RM_MarkObstacles = 0` through `RM_Smart = 3`. */
  function ModeCode(m: Mode): (code: int)
    ensures 0 <= code <= 3
    ensures code == 0 <==> m == MarkObstacles
  {
    match m
    case MarkObstacles => 0
    case Shove => 1
    case Walkaround => 2
    case Smart => 3
  }

  function ModeFromCode(code: int): (m: Option<Mode>)
    ensures m.Some? <==> 0 <= code <= 3
  {
    if code == 0 then Some(MarkObstacles)
    else if code == 1 then Some(Shove)
    else if code == 2 then Some(Walkaround)
    else if code == 3 then Some(Smart)
    else None
  }

  /** Mode codes are distinct and decode back to the mode. */
  lemma ModeCodeRoundTrip(m: Mode)
    ensures ModeFromCode(ModeCode(m)) == Some(m)
  {
  }

  lemma ModeCodeRoundTripFromCode(code: int)
    requires 0 <= code <= 3
    ensures ModeCode(ModeFromCode(code).value) == code
  {
  }

  /** `OE_LOW = 0`, `OE_MEDIUM = 1`, `OE_FULL = 2`: a bigger code means more
      effort. */
  function EffortCode(e: OptimizationEffort): (code: int)
    ensures 0 <= code <= 2
  {
    match e
    case Low => 0
    case Medium => 1
    case Full => 2
  }

  function EffortFromCode(code: int): (e: Option<OptimizationEffort>)
    ensures e.Some? <==> 0 <= code <= 2
  {
    if code == 0 then Some(Low)
    else if code == 1 then Some(Medium)
    else if code == 2 then Some(Full)
    else None
  }

  lemma EffortCodeRoundTrip(e: OptimizationEffort)
    ensures EffortFromCode(EffortCode(e)) == Some(e)
  {
  }

  lemma EffortCodeRoundTripFromCode(code: int)
    requires 0 <= code <= 2
    ensures EffortCode(EffortFromCode(code).value) == code
  {
  }

  /** `PNS_ROUTING_SETTINGS`, without the iteration and time limits. */
  class Settings {
    var shoveVias: bool
    var startDiagonal: bool
    var removeLoops: bool
    var smartPads: bool
    var suggestFinish: bool
    var followMouse: bool
    var jumpOverObstacles: bool
    var smoothDraggedSegments: bool
    var canViolateDrc: bool
    var routingMode: Mode
    var optimizerEffort: OptimizationEffort
    var trackWidth: int
    var viaDiameter: int
    var viaDrill: int

    /** `FollowMouse()`: the follow-mouse flag, except when the router only
        marks obstacles. */
    function FollowMouse(): (follows: bool)
      reads this
      ensures follows <==> followMouse && routingMode != MarkObstacles
      ensures follows ==> ModeCode(routingMode) != 0
    {
      followMouse && !(routingMode == MarkObstacles)
    }

    /** `InitialDirection()`: north-east when starting diagonally, north
        otherwise. */
    function InitialDirection(): (d: Direction45)
      reads this
      ensures d == NE <==> startDiagonal
      ensures d == N <==> !startDiagonal
    {
      if startDiagonal then NE else N
    }

    method SetMode(mode: Mode)
      modifies this`routingMode
      ensures routingMode == mode
      ensures FollowMouse() <==> followMouse && mode != MarkObstacles
    {
      routingMode := mode;
    }

    method SetOptimizerEffort(effort: OptimizationEffort)
      modifies this`optimizerEffort
      ensures optimizerEffort == effort
    {
      optimizerEffort := effort;
    }

    method SetShoveVias(enabled: bool)
      modifies this`shoveVias
      ensures shoveVias == enabled
    {
      shoveVias := enabled;
    }

    method SetRemoveLoops(enabled: bool)
      modifies this`removeLoops
      ensures removeLoops == enabled
    {
      removeLoops := enabled;
    }

    method SetSuggestFinish(enabled: bool)
      modifies this`suggestFinish
      ensures suggestFinish == enabled
    {
      suggestFinish := enabled;
    }

    method SetSmartPads(enabled: bool)
      modifies this`smartPads
      ensures smartPads == enabled
    {
      smartPads := enabled;
    }

    method SetSmoothDraggedSegments(enabled: bool)
      modifies this`smoothDraggedSegments
      ensures smoothDraggedSegments == enabled
    {
      smoothDraggedSegments := enabled;
    }

    method SetJumpOverObstacles(enabled: bool)
      modifies this`jumpOverObstacles
      ensures jumpOverObstacles == enabled
    {
      jumpOverObstacles := enabled;
    }

    /** `SetStartDiagonal`: observable only through `InitialDirection`. */
    method SetStartDiagonal(enabled: bool)
      modifies this`startDiagonal
      ensures startDiagonal == enabled
      ensures InitialDirection() == if enabled then NE else N
      ensures FollowMouse() == old(FollowMouse())
    {
      startDiagonal := enabled;
    }

    method SetCanViolateDrc(enabled: bool)
      modifies this`canViolateDrc
      ensures canViolateDrc == enabled
    {
      canViolateDrc := enabled;
    }

    method SetTrackWidth(width: int)
      modifies this`trackWidth
      ensures trackWidth == width
    {
      trackWidth := width;
    }

    method SetViaDiameter(diameter: int)
      modifies this`viaDiameter
      ensures viaDiameter == diameter
    {
      viaDiameter := diameter;
    }

    method SetViaDrill(drill: int)
      modifies this`viaDrill
      ensures viaDrill == drill
    {
      viaDrill := drill;
    }
  }
}
